/** `parse_quantity` of nutrition.py: splits a menu text such as "110g chicken" into
    an amount, an optional unit and the food text.

    The numeric rule is the regular expression `^(\d+(?:\.\d+)?)\s*(g|cup)?\s*(.+)$`,
    applied with `re.match`. It is modelled as the search a backtracking regular
    expression engine performs: every quantifier tries its longest run first and
    gives characters back one at a time, the optional unit tries "g", then "cup",
    then nothing, and the first complete match wins. `IsMatch` states, independently
    of the search order, what a complete match is. */
module Quantity {
  import opened Wrappers
  import opened PyStr

  datatype Unit = Gram | Cup

  /** The unit token as written, and the empty string for no unit. */
  function UnitText(u: Option<Unit>): string {
    match u
    case None => ""
    case Some(Gram) => "g"
    case Some(Cup) => "cup"
  }

  /** The triple `(qty, unit, item_text)` that `parse_quantity` returns. */
  datatype Quantity = Quantity(amount: real, unit: Option<Unit>, text: string)

  predicate DigitsIn(t: string, lo: nat, hi: nat)
    requires lo <= hi <= |t|
  {
    forall k :: lo <= k < hi ==> IsDigit(t[k])
  }

  predicate SpacesIn(t: string, lo: nat, hi: nat)
    requires lo <= hi <= |t|
  {
    forall k :: lo <= k < hi ==> IsSpace(t[k])
  }

  /** `.` does not match a line feed, so `(.+)$` fails on a remainder that holds one. */
  predicate NoNewlineFrom(t: string, p: nat)
    requires p <= |t|
  {
    forall k :: p <= k < |t| ==> t[k] != '\n'
  }

  /** The length of the longest run of digits that starts at `i`. */
  function DigitRun(t: string, i: nat): (n: nat)
    requires i <= |t|
    ensures i + n <= |t| && DigitsIn(t, i, i + n)
    ensures i + n == |t| || !IsDigit(t[i + n])
    decreases |t| - i
  {
    if i < |t| && IsDigit(t[i]) then 1 + DigitRun(t, i + 1) else 0
  }

  /** The length of the longest run of whitespace that starts at `i`. */
  function SpaceRun(t: string, i: nat): (n: nat)
    requires i <= |t|
    ensures i + n <= |t| && SpacesIn(t, i, i + n)
    ensures i + n == |t| || !IsSpace(t[i + n])
    decreases |t| - i
  {
    if i < |t| && IsSpace(t[i]) then 1 + SpaceRun(t, i + 1) else 0
  }

  /** Where the parts of one match of the pattern lie in the text `t`: the integer
      digits are `t[..intEnd]`, the optional fraction (a dot and digits) is
      `t[intEnd..numEnd]`, whitespace follows up to `unitStart`, the unit token is
      `t[unitStart..unitEnd]`, whitespace follows up to `restStart`, and the food
      text is `t[restStart..]`. */
  datatype Span = Span(intEnd: nat, numEnd: nat, unitStart: nat, unit: Option<Unit>, unitEnd: nat, restStart: nat)

  /** `\d+(?:\.\d+)?` matches `t[..numEnd]`, with its integer part ending at `intEnd`. */
  predicate NumberAt(t: string, intEnd: nat, numEnd: nat) {
    && 1 <= intEnd <= numEnd <= |t|
    && DigitsIn(t, 0, intEnd)
    && (numEnd == intEnd || (intEnd + 2 <= numEnd && t[intEnd] == '.' && DigitsIn(t, intEnd + 1, numEnd)))
  }

  /** Everything of the pattern up to and including the optional unit matches. */
  predicate HeadAt(t: string, m: Span) {
    && NumberAt(t, m.intEnd, m.numEnd)
    && m.numEnd <= m.unitStart <= m.unitEnd <= |t|
    && SpacesIn(t, m.numEnd, m.unitStart)
    && t[m.unitStart..m.unitEnd] == UnitText(m.unit)
  }

  /** `m` is a complete match of the pattern on `t`; the food text is never empty. */
  predicate IsMatch(t: string, m: Span) {
    && HeadAt(t, m)
    && m.unitEnd <= m.restStart < |t|
    && SpacesIn(t, m.unitEnd, m.restStart)
    && NoNewlineFrom(t, m.restStart)
  }

  // The engine. A backtracking matcher is a depth-first search over a tree of
  // stages: a stage either accepts (the food text matches) or lists, in the order
  // the engine tries them, the stages it backtracks through. `Search` returns the
  // first accepting leaf. `SearchSound` and `SearchComplete` show that from every
  // stage it finds a match exactly when a match that agrees with the choices made
  // so far exists.

  /** A point of the engine's search, with the choices made so far. */
  datatype Stage =
    | IntDigits(k: nat)              // `\d+` with at most `k` digits
    | AfterInt(k: nat)               // the integer part is `t[..k]`
    | Fraction(k: nat, e: nat)       // `\.\d+` with at most `e` digits after the dot
    | AfterNumber(k: nat, n: nat)    // the number is `t[..n]`
    | Spaces(k: nat, n: nat, s: nat) // the first `\s*`, with at most `s` characters
    | UnitAt(k: nat, n: nat, j: nat) // `(g|cup)?` at position `j`
    | Rest(m: Span, s: nat)          // the second `\s*`, at most `s` characters, then `(.+)$`
    | DeadEnd                           // a branch that fails at once

  function Level(st: Stage): nat {
    match st
    case IntDigits(_) => 6
    case AfterInt(_) => 5
    case Fraction(_, _) => 4
    case AfterNumber(_, _) => 3
    case Spaces(_, _, _) => 2
    case UnitAt(_, _, _) => 1
    case Rest(_, _) => 0
    case DeadEnd => 0
  }

  function Size(st: Stage): nat {
    match st
    case IntDigits(k) => k
    case Fraction(_, e) => e
    case Spaces(_, _, s) => s
    case Rest(_, s) => s
    case _ => 0
  }

  /** `a` is tried after `b` has been entered: the search moves down the tree. */
  predicate Below(a: Stage, b: Stage) {
    Level(a) < Level(b) || (Level(a) == Level(b) && Size(a) < Size(b))
  }

  /** The furthest position in the text a stage names. */
  function Reach(st: Stage): nat {
    match st
    case IntDigits(k) => k
    case AfterInt(k) => k
    case Fraction(k, e) => k + 1 + e
    case AfterNumber(_, n) => n
    case Spaces(_, n, s) => n + s
    case UnitAt(_, _, j) => j
    case Rest(m, s) => m.unitEnd + s
    case DeadEnd => 0
  }

  /** The positions a stage names lie within the text. */
  predicate InBounds(t: string, st: Stage) {
    Reach(st) <= |t|
  }

  /** What the pattern has matched when the engine reaches a stage. */
  predicate Reached(t: string, st: Stage)
    requires InBounds(t, st)
  {
    match st
    case IntDigits(k) => DigitsIn(t, 0, k)
    case AfterInt(k) => 1 <= k && DigitsIn(t, 0, k)
    case Fraction(k, e) => 1 <= k && t[k] == '.' && DigitsIn(t, 0, k) && DigitsIn(t, k + 1, k + 1 + e)
    case AfterNumber(k, n) => NumberAt(t, k, n)
    case Spaces(k, n, s) => NumberAt(t, k, n) && SpacesIn(t, n, n + s)
    case UnitAt(k, n, j) => NumberAt(t, k, n) && n <= j && SpacesIn(t, n, j)
    case Rest(m, s) => HeadAt(t, m) && SpacesIn(t, m.unitEnd, m.unitEnd + s)
    case DeadEnd => true
  }

  /** The match `w` agrees with the choices made up to a stage and lies among the
      alternatives the search from that stage still tries. */
  predicate Extends(st: Stage, w: Span) {
    match st
    case IntDigits(k) => 1 <= w.intEnd <= k
    case AfterInt(k) => w.intEnd == k
    case Fraction(k, e) => w.intEnd == k && k + 2 <= w.numEnd <= k + 1 + e
    case AfterNumber(k, n) => w.intEnd == k && w.numEnd == n
    case Spaces(k, n, s) => w.intEnd == k && w.numEnd == n && n <= w.unitStart <= n + s
    case UnitAt(k, n, j) => w.intEnd == k && w.numEnd == n && w.unitStart == j
    case Rest(m, s) => w == m.(restStart := w.restStart) && m.unitEnd <= w.restStart <= m.unitEnd + s
    case DeadEnd => false
  }

  /** `(.+)$` after the second `\s*`: the food text is the rest of the text, which
      must be non-empty and hold no line feed. */
  function Accept(t: string, st: Stage): Option<Span>
    requires InBounds(t, st)
  {
    match st
    case Rest(m, s) =>
      var p := m.unitEnd + s;
      if p < |t| && NoNewlineFrom(t, p) then Some(m.(restStart := p)) else None
    case _ => None
  }

  /** The stages the engine tries from `st`, in its order: each quantifier tries its
      longest run first and gives back one character at a time, and the unit tries
      "g", then "cup", then nothing. */
  function Alternatives(t: string, st: Stage): (alts: seq<Stage>)
    requires InBounds(t, st)
    ensures forall i :: 0 <= i < |alts| ==> InBounds(t, alts[i]) && Below(alts[i], st)
  {
    match st
    case IntDigits(k) => if k == 0 then [] else [AfterInt(k), IntDigits(k - 1)]
    case AfterInt(k) =>
      [if k < |t| && t[k] == '.' then Fraction(k, DigitRun(t, k + 1)) else DeadEnd, AfterNumber(k, k)]
    case Fraction(k, e) => if e == 0 then [] else [AfterNumber(k, k + 1 + e), Fraction(k, e - 1)]
    case AfterNumber(k, n) => [Spaces(k, n, SpaceRun(t, n))]
    case Spaces(k, n, s) => [UnitAt(k, n, n + s), if s > 0 then Spaces(k, n, s - 1) else DeadEnd]
    case UnitAt(k, n, j) =>
      [ if j < |t| && t[j] == 'g' then Rest(Span(k, n, j, Some(Gram), j + 1, 0), SpaceRun(t, j + 1)) else DeadEnd,
        if j + 3 <= |t| && t[j..j + 3] == "cup" then Rest(Span(k, n, j, Some(Cup), j + 3, 0), SpaceRun(t, j + 3)) else DeadEnd,
        Rest(Span(k, n, j, None, j, 0), SpaceRun(t, j)) ]
    case Rest(m, s) => if s > 0 then [Rest(m, s - 1)] else []
    case DeadEnd => []
  }

  /** The engine from stage `st`: accept, or the first alternative that succeeds. */
  function Search(t: string, st: Stage): Option<Span>
    requires InBounds(t, st)
    decreases Level(st), Size(st), 1, 0
  {
    var r := Accept(t, st);
    if r.Some? then r else FirstOf(t, Alternatives(t, st), st)
  }

  /** The first of the stages `alts` from which the search succeeds. */
  function FirstOf(t: string, alts: seq<Stage>, parent: Stage): Option<Span>
    requires forall i :: 0 <= i < |alts| ==> InBounds(t, alts[i]) && Below(alts[i], parent)
    decreases Level(parent), Size(parent), 0, |alts|
  {
    if alts == [] then None
    else
      assert Below(alts[0], parent);
      var r := Search(t, alts[0]);
      if r.Some? then r else FirstOf(t, alts[1..], parent)
  }

  lemma {:induction false} FirstOfSound(t: string, alts: seq<Stage>, parent: Stage)
    requires forall i :: 0 <= i < |alts| ==> InBounds(t, alts[i]) && Below(alts[i], parent)
    ensures var r := FirstOf(t, alts, parent);
      r.Some? ==> exists i :: 0 <= i < |alts| && Search(t, alts[i]) == r
    decreases |alts|
  {
    if alts != [] && Search(t, alts[0]).None? {
      FirstOfSound(t, alts[1..], parent);
      var r := FirstOf(t, alts, parent);
      if r.Some? {
        var i :| 0 <= i < |alts| - 1 && Search(t, alts[1..][i]) == r;
        assert Search(t, alts[i + 1]) == r;
      }
    }
  }

  lemma {:induction false} FirstOfFinds(t: string, alts: seq<Stage>, parent: Stage, i: nat)
    requires forall i :: 0 <= i < |alts| ==> InBounds(t, alts[i]) && Below(alts[i], parent)
    requires i < |alts| && Search(t, alts[i]).Some?
    ensures FirstOf(t, alts, parent).Some?
    decreases i
  {
    if i > 0 && Search(t, alts[0]).None? {
      FirstOfFinds(t, alts[1..], parent, i - 1);
    }
  }

  /** `FirstOf` returns what the first successful alternative returns. */
  lemma {:induction false} FirstOfPicks(t: string, alts: seq<Stage>, parent: Stage, i: nat)
    requires forall j :: 0 <= j < |alts| ==> InBounds(t, alts[j]) && Below(alts[j], parent)
    requires i < |alts| && Search(t, alts[i]).Some?
    requires forall j :: 0 <= j < i ==> Search(t, alts[j]).None?
    ensures FirstOf(t, alts, parent) == Search(t, alts[i])
    decreases i
  {
    if i > 0 {
      assert Search(t, alts[0]).None?;
      FirstOfPicks(t, alts[1..], parent, i - 1);
    }
  }

  /** From a stage that does not accept, the search returns what its first
      successful alternative returns. */
  lemma SearchPicks(t: string, st: Stage, i: nat)
    ensures && InBounds(t, st) && Accept(t, st).None?
            && i < |Alternatives(t, st)| && Search(t, Alternatives(t, st)[i]).Some?
            && (forall j :: 0 <= j < i ==> Search(t, Alternatives(t, st)[j]).None?)
            ==> Search(t, st) == Search(t, Alternatives(t, st)[i])
  {
    if && InBounds(t, st) && Accept(t, st).None?
       && i < |Alternatives(t, st)| && Search(t, Alternatives(t, st)[i]).Some?
       && (forall j :: 0 <= j < i ==> Search(t, Alternatives(t, st)[j]).None?)
    {
      FirstOfPicks(t, Alternatives(t, st), st, i);
    }
  }

  lemma {:induction false} DigitRunBound(t: string, i: nat, n: nat)
    requires i + n <= |t| && DigitsIn(t, i, i + n)
    ensures n <= DigitRun(t, i)
    decreases n
  {
    if n > 0 {
      DigitRunBound(t, i + 1, n - 1);
    }
  }

  lemma {:induction false} SpaceRunBound(t: string, i: nat, n: nat)
    requires i + n <= |t| && SpacesIn(t, i, i + n)
    ensures n <= SpaceRun(t, i)
    decreases n
  {
    if n > 0 {
      SpaceRunBound(t, i + 1, n - 1);
    }
  }

  lemma KeepsIntDigits(t: string, k: nat, i: nat, w: Span)
    requires InBounds(t, IntDigits(k)) && Reached(t, IntDigits(k)) && i < |Alternatives(t, IntDigits(k))|
    ensures Reached(t, Alternatives(t, IntDigits(k))[i])
    ensures Extends(Alternatives(t, IntDigits(k))[i], w) ==> Extends(IntDigits(k), w)
  {
  }

  lemma KeepsAfterInt(t: string, k: nat, i: nat, w: Span)
    requires InBounds(t, AfterInt(k)) && Reached(t, AfterInt(k)) && i < |Alternatives(t, AfterInt(k))|
    ensures Reached(t, Alternatives(t, AfterInt(k))[i])
    ensures Extends(Alternatives(t, AfterInt(k))[i], w) ==> Extends(AfterInt(k), w)
  {
  }

  lemma KeepsFraction(t: string, k: nat, e: nat, i: nat, w: Span)
    requires InBounds(t, Fraction(k, e)) && Reached(t, Fraction(k, e)) && i < |Alternatives(t, Fraction(k, e))|
    ensures Reached(t, Alternatives(t, Fraction(k, e))[i])
    ensures Extends(Alternatives(t, Fraction(k, e))[i], w) ==> Extends(Fraction(k, e), w)
  {
  }

  lemma KeepsAfterNumber(t: string, k: nat, n: nat, i: nat, w: Span)
    requires InBounds(t, AfterNumber(k, n)) && Reached(t, AfterNumber(k, n)) && i < |Alternatives(t, AfterNumber(k, n))|
    ensures Reached(t, Alternatives(t, AfterNumber(k, n))[i])
    ensures Extends(Alternatives(t, AfterNumber(k, n))[i], w) ==> Extends(AfterNumber(k, n), w)
  {
  }

  lemma KeepsSpaces(t: string, k: nat, n: nat, s: nat, i: nat, w: Span)
    requires InBounds(t, Spaces(k, n, s)) && Reached(t, Spaces(k, n, s)) && i < |Alternatives(t, Spaces(k, n, s))|
    ensures Reached(t, Alternatives(t, Spaces(k, n, s))[i])
    ensures Extends(Alternatives(t, Spaces(k, n, s))[i], w) ==> Extends(Spaces(k, n, s), w)
  {
  }

  lemma KeepsUnitAt(t: string, k: nat, n: nat, j: nat, i: nat, w: Span)
    requires InBounds(t, UnitAt(k, n, j)) && Reached(t, UnitAt(k, n, j)) && i < |Alternatives(t, UnitAt(k, n, j))|
    ensures Reached(t, Alternatives(t, UnitAt(k, n, j))[i])
    ensures Extends(Alternatives(t, UnitAt(k, n, j))[i], w) ==> Extends(UnitAt(k, n, j), w)
  {
    if i == 0 {
      KeepsGram(t, k, n, j, w);
    } else if i == 1 {
      KeepsCup(t, k, n, j, w);
    } else {
      KeepsNoUnit(t, k, n, j, w);
    }
  }

  lemma KeepsGram(t: string, k: nat, n: nat, j: nat, w: Span)
    requires InBounds(t, UnitAt(k, n, j)) && Reached(t, UnitAt(k, n, j))
    ensures Reached(t, Alternatives(t, UnitAt(k, n, j))[0])
    ensures Extends(Alternatives(t, UnitAt(k, n, j))[0], w) ==> Extends(UnitAt(k, n, j), w)
  {
    if j < |t| && t[j] == 'g' {
      assert t[j..j + 1] == "g";
    }
  }

  lemma KeepsCup(t: string, k: nat, n: nat, j: nat, w: Span)
    requires InBounds(t, UnitAt(k, n, j)) && Reached(t, UnitAt(k, n, j))
    ensures Reached(t, Alternatives(t, UnitAt(k, n, j))[1])
    ensures Extends(Alternatives(t, UnitAt(k, n, j))[1], w) ==> Extends(UnitAt(k, n, j), w)
  {
  }

  lemma KeepsNoUnit(t: string, k: nat, n: nat, j: nat, w: Span)
    requires InBounds(t, UnitAt(k, n, j)) && Reached(t, UnitAt(k, n, j))
    ensures Reached(t, Alternatives(t, UnitAt(k, n, j))[2])
    ensures Extends(Alternatives(t, UnitAt(k, n, j))[2], w) ==> Extends(UnitAt(k, n, j), w)
  {
  }

  lemma KeepsRest(t: string, m: Span, s: nat, i: nat, w: Span)
    requires InBounds(t, Rest(m, s)) && Reached(t, Rest(m, s)) && i < |Alternatives(t, Rest(m, s))|
    ensures Reached(t, Alternatives(t, Rest(m, s))[i])
    ensures Extends(Alternatives(t, Rest(m, s))[i], w) ==> Extends(Rest(m, s), w)
  {
  }

  /** The `i`-th alternative of a reached stage is reached in turn, and a match
      that agrees with it agrees with the stage. */
  lemma AlternativeKeeps(t: string, st: Stage, i: nat, w: Span)
    requires InBounds(t, st) && i < |Alternatives(t, st)|
    ensures Reached(t, st) ==> Reached(t, Alternatives(t, st)[i])
    ensures Reached(t, st) && Extends(Alternatives(t, st)[i], w) ==> Extends(st, w)
  {
    if Reached(t, st) {
      match st
      case IntDigits(k) => KeepsIntDigits(t, k, i, w);
      case AfterInt(k) => KeepsAfterInt(t, k, i, w);
      case Fraction(k, e) => KeepsFraction(t, k, e, i, w);
      case AfterNumber(k, n) => KeepsAfterNumber(t, k, n, i, w);
      case Spaces(k, n, s) => KeepsSpaces(t, k, n, s, i, w);
      case UnitAt(k, n, j) => KeepsUnitAt(t, k, n, j, i, w);
      case Rest(m, s) => KeepsRest(t, m, s, i, w);
    }
  }

  /** An accepted stage yields a match that agrees with it. */
  lemma AcceptSound(t: string, st: Stage)
    requires InBounds(t, st)
    ensures var r := Accept(t, st);
      Reached(t, st) && r.Some? ==> IsMatch(t, r.value) && Extends(st, r.value)
  {
  }

  lemma CoverAfterInt(t: string, k: nat, w: Span) returns (i: nat)
    requires InBounds(t, AfterInt(k)) && Reached(t, AfterInt(k)) && IsMatch(t, w) && Extends(AfterInt(k), w)
    ensures i < |Alternatives(t, AfterInt(k))| && Extends(Alternatives(t, AfterInt(k))[i], w)
  {
    if w.numEnd == k {
      i := 1;
    } else {
      DigitRunBound(t, k + 1, w.numEnd - k - 1);
      i := 0;
    }
  }

  /** A match that agrees with a unit choice is one the last `\s*` can reach. */
  lemma ExtendsRest(t: string, h: Span, w: Span)
    requires w == h.(restStart := w.restStart) && h.unitEnd <= w.restStart <= |t|
    requires SpacesIn(t, h.unitEnd, w.restStart)
    ensures Extends(Rest(h, SpaceRun(t, h.unitEnd)), w)
  {
    SpaceRunBound(t, h.unitEnd, w.restStart - h.unitEnd);
  }

  lemma CoverUnitAt(t: string, k: nat, n: nat, j: nat, w: Span) returns (i: nat)
    requires InBounds(t, UnitAt(k, n, j)) && Reached(t, UnitAt(k, n, j))
    requires IsMatch(t, w) && Extends(UnitAt(k, n, j), w)
    ensures i < |Alternatives(t, UnitAt(k, n, j))| && Extends(Alternatives(t, UnitAt(k, n, j))[i], w)
  {
    var h := w.(restStart := 0);
    ExtendsRest(t, h, w);
    match w.unit {
      case Some(Gram) =>
        assert t[j] == t[j..w.unitEnd][0];
        i := 0;
      case Some(Cup) =>
        CupAlternatives(t, k, n, j);
        i := 1;
      case None =>
        i := 2;
    }
  }

  /** A match that agrees with a stage the engine does not accept agrees with one
      of the stage's alternatives. */
  lemma AlternativesCover(t: string, st: Stage, w: Span) returns (i: nat)
    requires InBounds(t, st) && Accept(t, st).None?
    ensures Reached(t, st) && IsMatch(t, w) && Extends(st, w) ==>
      i < |Alternatives(t, st)| && Extends(Alternatives(t, st)[i], w)
  {
    i := 0;
    if Reached(t, st) && IsMatch(t, w) && Extends(st, w) {
      match st
      case IntDigits(k) =>
        i := if w.intEnd == k then 0 else 1;
      case AfterInt(k) =>
        i := CoverAfterInt(t, k, w);
      case Fraction(k, e) =>
        i := if w.numEnd == k + 1 + e then 0 else 1;
      case AfterNumber(k, n) =>
        SpaceRunBound(t, n, w.unitStart - n);
      case Spaces(k, n, s) =>
        i := if w.unitStart == n + s then 0 else 1;
      case UnitAt(k, n, j) =>
        i := CoverUnitAt(t, k, n, j, w);
      case Rest(m, s) =>
    }
  }

  /** What the search returns from a reached stage is a match, and it agrees with
      the stage. */
  lemma {:induction false} SearchSound(t: string, st: Stage)
    requires InBounds(t, st)
    ensures var r := Search(t, st);
      Reached(t, st) && r.Some? ==> IsMatch(t, r.value) && Extends(st, r.value)
    decreases Level(st), Size(st)
  {
    var r := Search(t, st);
    AcceptSound(t, st);
    if Accept(t, st).None? && r.Some? {
      var alts := Alternatives(t, st);
      FirstOfSound(t, alts, st);
      var i :| 0 <= i < |alts| && Search(t, alts[i]) == r;
      AlternativeKeeps(t, st, i, r.value);
      SearchSound(t, alts[i]);
    }
  }

  /** Whenever a match agrees with a reached stage, the search from that stage
      finds one. */
  lemma {:induction false} SearchComplete(t: string, st: Stage, w: Span)
    requires InBounds(t, st)
    ensures Reached(t, st) && IsMatch(t, w) && Extends(st, w) ==> Search(t, st).Some?
    decreases Level(st), Size(st)
  {
    if Accept(t, st).None? && Reached(t, st) && IsMatch(t, w) && Extends(st, w) {
      var alts := Alternatives(t, st);
      var i := AlternativesCover(t, st, w);
      AlternativeKeeps(t, st, i, w);
      SearchComplete(t, alts[i], w);
      FirstOfFinds(t, alts, st, i);
    }
  }

  /** Among all matches, the search from `IntDigits(k)` finds one whose integer
      part is the longest: digits are given back only as far as needed. */
  lemma {:induction false} SearchLongest(t: string, k: nat, w: Span)
    requires k <= |t| && DigitsIn(t, 0, k)
    requires IsMatch(t, w) && 1 <= w.intEnd <= k
    ensures Search(t, IntDigits(k)).Some? && Search(t, IntDigits(k)).value.intEnd >= w.intEnd
    decreases k
  {
    var alts := Alternatives(t, IntDigits(k));
    assert alts == [AfterInt(k), IntDigits(k - 1)];
    assert alts[1..] == [IntDigits(k - 1)];
    var r := Search(t, IntDigits(k));
    assert r == FirstOf(t, alts, IntDigits(k));
    SearchSound(t, AfterInt(k));
    if Search(t, AfterInt(k)).Some? {
      assert r == Search(t, AfterInt(k));
    } else {
      assert w.intEnd < k by {
        if w.intEnd == k {
          SearchComplete(t, AfterInt(k), w);
        }
      }
      SearchLongest(t, k - 1, w);
      assert FirstOf(t, alts[1..], IntDigits(k)) == Search(t, IntDigits(k - 1));
    }
  }

  /** `re.match(pattern, t)`: the first match in the engine's order, if any; what it
      returns is a match of the pattern. */
  function NumericMatch(t: string): (r: Option<Span>)
    ensures r.Some? ==> IsMatch(t, r.value)
  {
    SearchSound(t, IntDigits(DigitRun(t, 0)));
    Search(t, IntDigits(DigitRun(t, 0)))
  }

  /** Whenever the pattern can match, `re.match` succeeds, and its integer part is
      the longest any match has. */
  lemma NumericMatchComplete(t: string, w: Span)
    requires IsMatch(t, w)
    ensures NumericMatch(t).Some?
    ensures NumericMatch(t).value.intEnd >= w.intEnd
  {
    DigitRunBound(t, 0, w.intEnd);
    SearchLongest(t, DigitRun(t, 0), w);
  }

  function DigitValue(ch: char): nat
    requires IsDigit(ch)
  {
    ch as int - '0' as int
  }

  /** `int(ds)` for a string of decimal digits. */
  function DigitsValue(ds: string): nat
    requires DigitsIn(ds, 0, |ds|)
  {
    if ds == [] then 0 else DigitsValue(ds[..|ds| - 1]) * 10 + DigitValue(ds[|ds| - 1])
  }

  function Pow10(n: nat): (r: nat)
    ensures r >= 1
  {
    if n == 0 then 1 else 10 * Pow10(n - 1)
  }

  /** `float(m.group(1))`: the decimal number the match starts with. */
  function NumberValue(t: string, m: Span): real
    requires NumberAt(t, m.intEnd, m.numEnd)
  {
    var whole := DigitsValue(t[..m.intEnd]);
    if m.numEnd == m.intEnd then whole as real
    else whole as real + DigitsValue(t[m.intEnd + 1..m.numEnd]) as real / Pow10(m.numEnd - m.intEnd - 1) as real
  }

  /** `text.strip().lower()`. */
  function Normalize(raw: string): string {
    Lower(Strip(raw))
  }

  /** A text `Normalize` leaves unchanged: no whitespace at either end and no
      upper-case letter. */
  predicate Normalised(t: string) {
    && (t != [] ==> !IsSpace(t[0]) && !IsSpace(t[|t| - 1]))
    && forall i :: 0 <= i < |t| ==> !('A' <= t[i] <= 'Z')
  }

  /** Lower-casing a text without whitespace at either end gives a normalised
      text. */
  lemma LowerNormalises(s: string)
    requires s != [] ==> !IsSpace(s[0]) && !IsSpace(s[|s| - 1])
    ensures Normalised(Lower(s))
  {
    var l := Lower(s);
    if s != [] {
      assert l[0] == LowerChar(s[0]);
      assert l[|s| - 1] == LowerChar(s[|s| - 1]);
    }
  }

  /** `Normalize` produces a normalised text. */
  lemma NormalizeNormalises(raw: string)
    ensures Normalised(Normalize(raw))
  {
    LowerNormalises(Strip(raw));
  }

  /** `Normalize` leaves a normalised text unchanged. */
  lemma NormalisedFixed(t: string)
    requires Normalised(t)
    ensures Normalize(t) == t
  {
    var s := Strip(t);
    assert s == t by {
      StripFixed(t);
    }
    LowerFixed(s);
  }

  /** The rules of `parse_quantity` applied to the normalised text `t`: "half "
      first, then the numeric pattern, else one of the whole text. */
  function ParseNormalised(t: string): Quantity {
    if StartsWith(t, "half ") then Quantity(0.5, None, t[5..])
    else
      match NumericMatch(t)
      case Some(m) => Quantity(NumberValue(t, m), m.unit, t[m.restStart..])
      case None => Quantity(1.0, None, t)
  }

  /** `parse_quantity(text)`. */
  function ParseQuantity(raw: string): Quantity {
    ParseNormalised(Normalize(raw))
  }

  /** "half X" gives 0.5 of X, checked before the numeric rule. */
  lemma ParseHalf(raw: string)
    requires StartsWith(Normalize(raw), "half ")
    ensures ParseQuantity(raw) == Quantity(0.5, None, Normalize(raw)[5..])
  {
  }

  /** When the numeric pattern matches, the result is read off a match whose integer
      part is the longest possible. */
  lemma ParseNumeric(raw: string, w: Span)
    requires !StartsWith(Normalize(raw), "half ") && IsMatch(Normalize(raw), w)
    ensures var t := Normalize(raw);
      exists m :: IsMatch(t, m) && m.intEnd >= w.intEnd
        && ParseQuantity(raw) == Quantity(NumberValue(t, m), m.unit, t[m.restStart..])
  {
    var t := Normalize(raw);
    NumericMatchComplete(t, w);
    var m := NumericMatch(t).value;
    assert IsMatch(t, m) && m.intEnd >= w.intEnd;
  }

  /** Text matching neither rule is a single unit of the whole text, and this
      happens exactly when the pattern cannot match. */
  lemma ParseFallback(raw: string)
    requires !StartsWith(Normalize(raw), "half ")
    ensures var t := Normalize(raw);
      (ParseQuantity(raw).text == t) <==> (forall m :: !IsMatch(t, m))
    ensures var t := Normalize(raw);
      (forall m :: !IsMatch(t, m)) ==> ParseQuantity(raw) == Quantity(1.0, None, t)
  {
    var t := Normalize(raw);
    if w :| IsMatch(t, w) {
      NumericMatchComplete(t, w);
      var m := NumericMatch(t).value;
      assert |t[m.restStart..]| < |t|;
    }
  }

  /** Normalising twice is normalising once. */
  lemma NormalizeIdempotent(raw: string)
    ensures Normalize(Normalize(raw)) == Normalize(raw)
  {
    var t := Normalize(raw);
    StripFixed(t);
    LowerFixed(t);
  }


  lemma {:induction false} DigitRunExact(t: string, i: nat, n: nat)
    requires i + n <= |t| && DigitsIn(t, i, i + n)
    requires i + n == |t| || !IsDigit(t[i + n])
    ensures DigitRun(t, i) == n
    decreases n
  {
    if n > 0 {
      DigitRunExact(t, i + 1, n - 1);
    }
  }

  lemma {:induction false} SpaceRunExact(t: string, i: nat, n: nat)
    requires i + n <= |t| && SpacesIn(t, i, i + n)
    requires i + n == |t| || !IsSpace(t[i + n])
    ensures SpaceRun(t, i) == n
    decreases n
  {
    if n > 0 {
      SpaceRunExact(t, i + 1, n - 1);
    }
  }

  /** The whitespace run that starts where `sp` is written is `sp` itself when
      what follows does not start with whitespace. */
  lemma SpaceRunAt(pre: string, sp: string, tail: string)
    requires SpacesIn(sp, 0, |sp|) && (tail == [] || !IsSpace(tail[0]))
    ensures SpaceRun(pre + sp + tail, |pre|) == |sp|
  {
    var t := pre + sp + tail;
    assert SpacesIn(t, |pre|, |pre| + |sp|) by {
      forall i | |pre| <= i < |pre| + |sp| ensures IsSpace(t[i]) {
        assert t[i] == sp[i - |pre|];
      }
    }
    assert |pre| + |sp| == |t| || t[|pre| + |sp|] == tail[0];
    SpaceRunExact(t, |pre|, |sp|);
  }

  /** The digit run that starts where `ds` is written is `ds` itself when what
      follows does not start with a digit. */
  lemma DigitRunAt(pre: string, ds: string, tail: string)
    requires DigitsIn(ds, 0, |ds|) && (tail == [] || !IsDigit(tail[0]))
    ensures DigitRun(pre + ds + tail, |pre|) == |ds|
  {
    var t := pre + ds + tail;
    assert DigitsIn(t, |pre|, |pre| + |ds|) by {
      forall i | |pre| <= i < |pre| + |ds| ensures IsDigit(t[i]) {
        assert t[i] == ds[i - |pre|];
      }
    }
    assert |pre| + |ds| == |t| || t[|pre| + |ds|] == tail[0];
    DigitRunExact(t, |pre|, |ds|);
  }

  /** The search never succeeds from a dead end. */
  lemma SearchDeadEnd(t: string)
    ensures Search(t, DeadEnd) == None
  {
  }

  /** The last `\s*` takes all the whitespace before a food text that holds no
      line feed. */
  lemma RestAccepts(t: string, h: Span, rs: nat)
    requires h.unitEnd <= rs < |t| && SpacesIn(t, h.unitEnd, rs) && !IsSpace(t[rs]) && NoNewlineFrom(t, rs)
    ensures Search(t, Rest(h, SpaceRun(t, h.unitEnd))) == Some(h.(restStart := rs))
  {
    SpaceRunExact(t, h.unitEnd, rs - h.unitEnd);
  }

  /** "g" at `us`, then whitespace and a food text, is read as the gram unit. */
  lemma UnitAtFindsGram(t: string, k: nat, n: nat, us: nat, rs: nat)
    requires us + 1 <= rs < |t| && t[us] == 'g'
    requires SpacesIn(t, us + 1, rs) && !IsSpace(t[rs]) && NoNewlineFrom(t, rs)
    ensures Search(t, UnitAt(k, n, us)) == Some(Span(k, n, us, Some(Gram), us + 1, rs))
  {
    var h := Span(k, n, us, Some(Gram), us + 1, 0);
    RestAccepts(t, h, rs);
    assert Alternatives(t, UnitAt(k, n, us))[0] == Rest(h, SpaceRun(t, us + 1));
    SearchPicks(t, UnitAt(k, n, us), 0);
  }

  /** The alternatives at a "cup" token: the gram branch is dead, the cup branch
      goes on to the trailing whitespace. */
  lemma CupAlternatives(t: string, k: nat, n: nat, us: nat)
    requires us + 3 <= |t| && t[us..us + 3] == "cup"
    ensures Alternatives(t, UnitAt(k, n, us))[0] == DeadEnd
    ensures Alternatives(t, UnitAt(k, n, us))[1]
         == Rest(Span(k, n, us, Some(Cup), us + 3, 0), SpaceRun(t, us + 3))
  {
    assert t[us] == t[us..us + 3][0];
  }

  /** "cup" at `us`, then whitespace and a food text, is read as the cup unit. */
  lemma UnitAtFindsCup(t: string, k: nat, n: nat, us: nat, rs: nat)
    requires us + 3 <= rs < |t| && t[us..us + 3] == "cup"
    requires SpacesIn(t, us + 3, rs) && !IsSpace(t[rs]) && NoNewlineFrom(t, rs)
    ensures Search(t, UnitAt(k, n, us)) == Some(Span(k, n, us, Some(Cup), us + 3, rs))
  {
    RestAccepts(t, Span(k, n, us, Some(Cup), us + 3, 0), rs);
    CupAlternatives(t, k, n, us);
    SearchDeadEnd(t);
    SearchPicks(t, UnitAt(k, n, us), 1);
  }

  /** After a number, whitespace, a unit token, whitespace and a food text that does
      not start with whitespace are read as exactly those parts. */
  lemma AfterNumberFindsUnit(t: string, k: nat, n: nat, us: nat, unit: Unit, rs: nat)
    requires n <= us && us + |UnitText(Some(unit))| <= rs < |t| && SpacesIn(t, n, us)
    requires t[us..us + |UnitText(Some(unit))|] == UnitText(Some(unit))
    requires SpacesIn(t, us + |UnitText(Some(unit))|, rs) && !IsSpace(t[rs]) && NoNewlineFrom(t, rs)
    ensures Search(t, AfterNumber(k, n)) == Some(Span(k, n, us, Some(unit), us + |UnitText(Some(unit))|, rs))
  {
    if unit == Gram {
      UnitAtFindsGram(t, k, n, us, rs);
    } else {
      UnitAtFindsCup(t, k, n, us, rs);
    }
    assert t[us] == UnitText(Some(unit))[0];
    SpaceRunExact(t, n, us - n);
    assert Alternatives(t, Spaces(k, n, us - n))[0] == UnitAt(k, n, us);
    SearchPicks(t, Spaces(k, n, us - n), 0);
    SearchPicks(t, AfterNumber(k, n), 0);
  }

  /** The alternatives where neither "g" nor "cup" starts: both unit branches are
      dead, and the unit-less branch has no whitespace to give back. */
  lemma NoUnitAlternatives(t: string, k: nat, n: nat, rs: nat)
    requires n <= rs < |t| && !IsSpace(t[rs])
    requires t[rs] != 'g' && !(rs + 3 <= |t| && t[rs..rs + 3] == "cup")
    ensures Alternatives(t, UnitAt(k, n, rs)) == [DeadEnd, DeadEnd, Rest(Span(k, n, rs, None, rs, 0), 0)]
  {
    SpaceRunExact(t, rs, 0);
  }

  /** After a number with no unit token, whitespace and a food text that starts
      with neither whitespace nor a unit token are read as exactly those parts. The
      first `\s*` takes all the whitespace, so the empty unit sits just before the
      food text. */
  lemma AfterNumberFindsNone(t: string, k: nat, n: nat, rs: nat)
    requires n <= rs < |t|
    requires SpacesIn(t, n, rs) && !IsSpace(t[rs]) && NoNewlineFrom(t, rs)
    requires t[rs] != 'g' && !(rs + 3 <= |t| && t[rs..rs + 3] == "cup")
    ensures Search(t, AfterNumber(k, n)) == Some(Span(k, n, rs, None, rs, rs))
  {
    var m := Span(k, n, rs, None, rs, rs);
    var h := m.(restStart := 0);
    assert Search(t, Rest(h, 0)) == Some(m) by {
      SpaceRunExact(t, rs, 0);
    }
    assert Search(t, UnitAt(k, n, rs)) == Some(m) by {
      NoUnitAlternatives(t, k, n, rs);
      SearchDeadEnd(t);
      SearchPicks(t, UnitAt(k, n, rs), 2);
    }
    assert Search(t, Spaces(k, n, rs - n)) == Some(m) by {
      assert Alternatives(t, Spaces(k, n, rs - n))[0] == UnitAt(k, n, rs);
      SearchPicks(t, Spaces(k, n, rs - n), 0);
    }
    SpaceRunExact(t, n, rs - n);
    SearchPicks(t, AfterNumber(k, n), 0);
  }

  /** After the integer digits, a fraction is read in full when there is one, and
      skipped otherwise. */
  lemma AfterIntFinds(t: string, k: nat, n: nat)
    requires NumberAt(t, k, n) && Search(t, AfterNumber(k, n)).Some?
    requires n == |t| || !IsDigit(t[n])
    requires n == k ==> n == |t| || t[n] != '.'
    ensures Search(t, AfterInt(k)) == Search(t, AfterNumber(k, n))
  {
    if n == k {
      assert Alternatives(t, AfterInt(k)) == [DeadEnd, AfterNumber(k, k)];
      SearchDeadEnd(t);
      SearchPicks(t, AfterInt(k), 1);
    } else {
      var e := n - k - 1;
      DigitRunExact(t, k + 1, e);
      assert Alternatives(t, AfterInt(k))[0] == Fraction(k, e);
      assert Alternatives(t, Fraction(k, e))[0] == AfterNumber(k, n);
      SearchPicks(t, Fraction(k, e), 0);
      SearchPicks(t, AfterInt(k), 0);
    }
  }

  /** `re.match` reads the whole number: its integer digits and, when a dot and
      digits follow, all of its fraction digits. */
  lemma NumericFinds(t: string, k: nat, n: nat)
    requires NumberAt(t, k, n) && Search(t, AfterNumber(k, n)).Some?
    requires n == |t| || !IsDigit(t[n])
    requires n == k ==> n == |t| || t[n] != '.'
    ensures NumericMatch(t) == Search(t, AfterNumber(k, n))
  {
    DigitRunExact(t, 0, k);
    AfterIntFinds(t, k, n);
    assert Alternatives(t, IntDigits(k))[0] == AfterInt(k);
    SearchPicks(t, IntDigits(k), 0);
  }

  /** The value of a decimal with integer digits `ds` and fraction digits `fs`. */
  function DecimalValue(ds: string, fs: string): real
    requires DigitsIn(ds, 0, |ds|) && DigitsIn(fs, 0, |fs|)
  {
    DigitsValue(ds) as real + DigitsValue(fs) as real / Pow10(|fs|) as real
  }

  /** The number as written: integer digits, then a dot and the fraction digits
      when there are any. */
  function NumberText(ds: string, fs: string): string {
    if fs == [] then ds else ds + "." + fs
  }

  /** A menu text written as a number, whitespace, an optional unit token,
      whitespace and a food text. */
  function WrittenText(ds: string, fs: string, sp1: string, unit: Option<Unit>, sp2: string, food: string): string {
    NumberText(ds, fs) + (sp1 + UnitText(unit) + sp2 + food)
  }

  /** Where the match lies when the parts of the text are at known positions. */
  function SpanOf(k: nat, n: nat, unit: Option<Unit>, us: nat, rs: nat): Span {
    if unit.None? then Span(k, n, rs, None, rs, rs) else Span(k, n, us, unit, us + |UnitText(unit)|, rs)
  }

  /** The number `t[..n]`, with integer part `t[..k]`, is followed by neither a
      digit nor, without a fraction, a dot. */
  predicate NumberEnds(t: string, k: nat, n: nat) {
    && NumberAt(t, k, n)
    && (n == |t| || !IsDigit(t[n]))
    && (n == k ==> n == |t| || t[n] != '.')
  }

  /** After the number that ends at `n` come whitespace, the unit token at `us`,
      whitespace, and from `rs` on a food text that starts with neither whitespace
      nor, without a unit, a unit token. */
  predicate TailAt(t: string, n: nat, unit: Option<Unit>, us: nat, rs: nat) {
    && n <= us && us + |UnitText(unit)| <= rs < |t|
    && SpacesIn(t, n, us) && t[us..us + |UnitText(unit)|] == UnitText(unit)
    && SpacesIn(t, us + |UnitText(unit)|, rs) && !IsSpace(t[rs]) && NoNewlineFrom(t, rs)
    && (unit.None? ==> us == rs && t[rs] != 'g' && !(rs + 3 <= |t| && t[rs..rs + 3] == "cup"))
  }

  /** On a text laid out as a number, a unit and a food text, `re.match` finds
      exactly those parts. */
  lemma NumericAt(t: string, k: nat, n: nat, unit: Option<Unit>, us: nat, rs: nat)
    ensures NumberEnds(t, k, n) && TailAt(t, n, unit, us, rs) ==> NumericMatch(t) == Some(SpanOf(k, n, unit, us, rs))
  {
    if NumberEnds(t, k, n) && TailAt(t, n, unit, us, rs) {
      if unit.Some? {
        AfterNumberFindsUnit(t, k, n, us, unit.value, rs);
      } else {
        AfterNumberFindsNone(t, k, n, rs);
      }
      NumericFinds(t, k, n);
    }
  }

  lemma NumberValueOf(ds: string, fs: string, tail: string, m: Span)
    requires |ds| >= 1 && DigitsIn(ds, 0, |ds|) && DigitsIn(fs, 0, |fs|)
    requires m.intEnd == |ds| && m.numEnd == |NumberText(ds, fs)|
    ensures var t := NumberText(ds, fs) + tail;
      NumberAt(t, m.intEnd, m.numEnd) && NumberValue(t, m) == DecimalValue(ds, fs)
  {
    var t := NumberText(ds, fs) + tail;
    var k, n := |ds|, |NumberText(ds, fs)|;
    assert t[..k] == ds;
    assert DigitsIn(t, 0, k);
    if fs != [] {
      assert t[k] == '.';
      assert t[k + 1..n] == fs;
      assert DigitsIn(t, k + 1, n);
    }
  }

  /** The conditions under which a written quantity is read back as written: the
      food text is normalised, holds no line feed, and cannot be read as part of
      the number or, without a unit, as a unit. */
  predicate WellWritten(ds: string, fs: string, sp1: string, unit: Option<Unit>, sp2: string, food: string) {
    && |ds| >= 1 && DigitsIn(ds, 0, |ds|) && DigitsIn(fs, 0, |fs|)
    && SpacesIn(sp1, 0, |sp1|) && SpacesIn(sp2, 0, |sp2|)
    && food != [] && !IsSpace(food[0]) && !IsSpace(food[|food| - 1]) && '\n' !in food
    && (forall i :: 0 <= i < |food| ==> !('A' <= food[i] <= 'Z'))
    && (unit.None? ==> food[0] != 'g' && !StartsWith(food, "cup"))
    && (unit.None? && sp1 == [] && sp2 == [] ==> !IsDigit(food[0]) && (fs == [] ==> food[0] != '.'))
  }

  lemma LayoutNumber(ds: string, fs: string, sp1: string, unit: Option<Unit>, sp2: string, food: string)
    requires WellWritten(ds, fs, sp1, unit, sp2, food)
    ensures NumberEnds(WrittenText(ds, fs, sp1, unit, sp2, food), |ds|, |NumberText(ds, fs)|)
  {
    var tail := sp1 + UnitText(unit) + sp2 + food;
    var t := NumberText(ds, fs) + tail;
    var n := |NumberText(ds, fs)|;
    NumberValueOf(ds, fs, tail, Span(|ds|, n, 0, None, 0, 0));
    assert t[n] == tail[0];
    if sp1 != [] {
      assert tail[0] == sp1[0];
    } else if unit.Some? {
      assert tail[0] == UnitText(unit)[0];
    } else if sp2 != [] {
      assert tail[0] == sp2[0];
    } else {
      assert tail[0] == food[0];
    }
  }

  lemma LayoutSpaces(num: string, sp1: string, unit: Option<Unit>, sp2: string, food: string)
    requires SpacesIn(sp1, 0, |sp1|) && SpacesIn(sp2, 0, |sp2|)
    ensures var t := num + (sp1 + UnitText(unit) + sp2 + food);
      var us := |num| + |sp1|;
      var ue := us + |UnitText(unit)|;
      && ue + |sp2| <= |t|
      && SpacesIn(t, |num|, us) && t[us..ue] == UnitText(unit) && SpacesIn(t, ue, ue + |sp2|)
  {
    var u := UnitText(unit);
    var t := num + (sp1 + u + sp2 + food);
    var us := |num| + |sp1|;
    var ue := us + |u|;
    assert t[us..ue] == u;
    assert SpacesIn(t, |num|, us) by {
      forall i | |num| <= i < us ensures IsSpace(t[i]) {
        assert t[i] == sp1[i - |num|];
      }
    }
    assert SpacesIn(t, ue, ue + |sp2|) by {
      forall i | ue <= i < ue + |sp2| ensures IsSpace(t[i]) {
        assert t[i] == sp2[i - ue];
      }
    }
  }

  lemma LayoutFood(num: string, sp1: string, unit: Option<Unit>, sp2: string, food: string)
    requires food != [] && '\n' !in food
    ensures var t := num + (sp1 + UnitText(unit) + sp2 + food);
      var rs := |num| + |sp1| + |UnitText(unit)| + |sp2|;
      && rs < |t| && t[rs..] == food && NoNewlineFrom(t, rs)
      && (rs + 3 <= |t| ==> t[rs..rs + 3] == food[..3])
  {
    var t := num + (sp1 + UnitText(unit) + sp2 + food);
    var rs := |num| + |sp1| + |UnitText(unit)| + |sp2|;
    assert t[rs..] == food;
    assert NoNewlineFrom(t, rs) by {
      forall i | rs <= i < |t| ensures t[i] != '\n' {
        assert t[i] == food[i - rs];
      }
    }
  }

  lemma LayoutTail(num: string, sp1: string, unit: Option<Unit>, sp2: string, food: string)
    requires SpacesIn(sp1, 0, |sp1|) && SpacesIn(sp2, 0, |sp2|)
    requires food != [] && !IsSpace(food[0]) && '\n' !in food
    requires unit.None? ==> food[0] != 'g' && !StartsWith(food, "cup")
    ensures var t := num + (sp1 + UnitText(unit) + sp2 + food);
      var rs := |num| + |sp1| + |UnitText(unit)| + |sp2|;
      var us := if unit.None? then rs else |num| + |sp1|;
      TailAt(t, |num|, unit, us, rs) && t[rs..] == food
  {
    var t := num + (sp1 + UnitText(unit) + sp2 + food);
    var rs := |num| + |sp1| + |UnitText(unit)| + |sp2|;
    LayoutSpaces(num, sp1, unit, sp2, food);
    LayoutFood(num, sp1, unit, sp2, food);
    assert t[rs] == food[0];
    if unit.None? {
      assert SpacesIn(t, |num|, rs) by {
        forall i | |num| <= i < rs ensures IsSpace(t[i]) {
          assert i < |num| + |sp1| || |num| + |sp1| <= i < |num| + |sp1| + |sp2|;
        }
      }
    }
  }

  lemma LayoutCase(num: string, sp1: string, unit: Option<Unit>, sp2: string, food: string)
    requires forall i :: 0 <= i < |num| ==> IsDigit(num[i]) || num[i] == '.'
    requires SpacesIn(sp1, 0, |sp1|) && SpacesIn(sp2, 0, |sp2|)
    requires food != [] && !IsSpace(food[|food| - 1])
    requires forall i :: 0 <= i < |food| ==> !('A' <= food[i] <= 'Z')
    ensures var t := num + (sp1 + UnitText(unit) + sp2 + food);
      !IsSpace(t[|t| - 1]) && forall i :: 0 <= i < |t| ==> !('A' <= t[i] <= 'Z')
  {
    var u := UnitText(unit);
    var t := num + (sp1 + u + sp2 + food);
    var a := |num| + |sp1|;
    var b := a + |u|;
    var c := b + |sp2|;
    forall i | 0 <= i < |t| ensures !('A' <= t[i] <= 'Z') {
      if i < |num| {
        assert t[i] == num[i];
      } else if i < a {
        assert t[i] == sp1[i - |num|];
      } else if i < b {
        assert t[i] == u[i - a];
      } else if i < c {
        assert t[i] == sp2[i - b];
      } else {
        assert t[i] == food[i - c];
      }
    }
    assert t[|t| - 1] == food[|food| - 1];
  }

  /** A well-written quantity is already normalised and does not start with "half ". */
  lemma NormalWritten(ds: string, fs: string, sp1: string, unit: Option<Unit>, sp2: string, food: string)
    requires WellWritten(ds, fs, sp1, unit, sp2, food)
    ensures var t := WrittenText(ds, fs, sp1, unit, sp2, food);
      Normalised(t) && !StartsWith(t, "half ")
  {
    var num := NumberText(ds, fs);
    var t := num + (sp1 + UnitText(unit) + sp2 + food);
    assert forall i :: 0 <= i < |num| ==> IsDigit(num[i]) || num[i] == '.' by {
      forall i | 0 <= i < |num| ensures IsDigit(num[i]) || num[i] == '.' {
        if i >= |ds| + 1 {
          assert num[i] == fs[i - |ds| - 1];
        }
      }
    }
    LayoutCase(num, sp1, unit, sp2, food);
    assert t[0] == ds[0];
    assert IsDigit(t[0]);
  }

  /** On a normalised text that does not start with "half ", the result is read
      off the match the search finds. */
  lemma ParseRead(t: string, m: Span)
    requires Normalised(t) && !StartsWith(t, "half ") && NumericMatch(t) == Some(m)
    ensures NumberAt(t, m.intEnd, m.numEnd) && m.restStart <= |t|
    ensures ParseQuantity(t) == Quantity(NumberValue(t, m), m.unit, t[m.restStart..])
  {
    NormalisedFixed(t);
  }

  /** On a normalised text laid out as a number, a unit and a food text, the parse
      returns the number's value, the unit and the food text. */
  lemma ParseLaidOut(t: string, k: nat, n: nat, unit: Option<Unit>, us: nat, rs: nat)
    ensures Normalised(t) && !StartsWith(t, "half ") && NumberEnds(t, k, n) && TailAt(t, n, unit, us, rs) ==>
      ParseQuantity(t) == Quantity(NumberValue(t, SpanOf(k, n, unit, us, rs)), unit, t[rs..])
  {
    if Normalised(t) && !StartsWith(t, "half ") && NumberEnds(t, k, n) && TailAt(t, n, unit, us, rs) {
      NumericAt(t, k, n, unit, us, rs);
      ParseRead(t, SpanOf(k, n, unit, us, rs));
    }
  }

  /** The number of a well-written quantity ends where its digits end and has the
      value that they denote; the whole text is normalised. */
  lemma WrittenNumber(ds: string, fs: string, sp1: string, unit: Option<Unit>, sp2: string, food: string,
                      t: string, n: nat, us: nat, rs: nat)
    requires WellWritten(ds, fs, sp1, unit, sp2, food) && t == WrittenText(ds, fs, sp1, unit, sp2, food)
    requires n == |NumberText(ds, fs)|
    ensures && Normalised(t) && !StartsWith(t, "half ") && NumberEnds(t, |ds|, n)
            && NumberValue(t, SpanOf(|ds|, n, unit, us, rs)) == DecimalValue(ds, fs)
  {
    NormalWritten(ds, fs, sp1, unit, sp2, food);
    LayoutNumber(ds, fs, sp1, unit, sp2, food);
    NumberValueOf(ds, fs, sp1 + UnitText(unit) + sp2 + food, SpanOf(|ds|, n, unit, us, rs));
  }

  /** The unit and the food text of a well-written quantity sit where they were
      written. */
  lemma WrittenTail(ds: string, fs: string, sp1: string, unit: Option<Unit>, sp2: string, food: string,
                    t: string, n: nat, us: nat, rs: nat)
    requires WellWritten(ds, fs, sp1, unit, sp2, food) && t == WrittenText(ds, fs, sp1, unit, sp2, food)
    requires n == |NumberText(ds, fs)| && rs == n + |sp1| + |UnitText(unit)| + |sp2|
    requires us == if unit.None? then rs else n + |sp1|
    ensures TailAt(t, n, unit, us, rs) && t[rs..] == food
  {
    var num := NumberText(ds, fs);
    assert t == num + (sp1 + UnitText(unit) + sp2 + food);
    assert food != [] && !IsSpace(food[0]) && '\n' !in food;
    assert unit.None? ==> food[0] != 'g' && !StartsWith(food, "cup");
    LayoutTail(num, sp1, unit, sp2, food);
  }

  /** The well-formed case of the numeric rule: a menu text written as a number,
      whitespace, an optional "g" or "cup", whitespace and a food text parses into
      that number, that unit and that food text. */
  lemma ParseWritten(ds: string, fs: string, sp1: string, unit: Option<Unit>, sp2: string, food: string)
    requires WellWritten(ds, fs, sp1, unit, sp2, food)
    ensures ParseQuantity(WrittenText(ds, fs, sp1, unit, sp2, food)) == Quantity(DecimalValue(ds, fs), unit, food)
  {
    var t := WrittenText(ds, fs, sp1, unit, sp2, food);
    var n := |NumberText(ds, fs)|;
    var rs := n + |sp1| + |UnitText(unit)| + |sp2|;
    var us := if unit.None? then rs else n + |sp1|;
    WrittenNumber(ds, fs, sp1, unit, sp2, food, t, n, us, rs);
    WrittenTail(ds, fs, sp1, unit, sp2, food, t, n, us, rs);
    ParseLaidOut(t, |ds|, n, unit, us, rs);
  }

  // The food text `(.+)` must not be empty, so the engine gives characters back
  // from the end of the number when nothing else follows it.

  /** A match whose integer part reaches the last character but one has nothing
      between its number and a one-character food text. */
  lemma SqueezedMatch(t: string, k: nat, m: Span)
    requires IsMatch(t, m) && m.intEnd >= k && k + 1 == |t|
    ensures m == Span(k, k, k, None, k, k)
  {
    assert |UnitText(m.unit)| == m.unitEnd - m.unitStart == 0;
  }

  /** Digits followed by a single character that is not whitespace read as the
      number of the digits alone, with that character as the food text: "110g" gives
      (110, no unit, "g"), and "110" gives (11, no unit, "0"). */
  lemma ParseDigitsThenChar(ds: string, c: char)
    requires |ds| >= 1 && DigitsIn(ds, 0, |ds|) && !IsSpace(c) && !('A' <= c <= 'Z')
    ensures ParseQuantity(ds + [c]) == Quantity(DigitsValue(ds) as real, None, [c])
  {
    var t := ds + [c];
    var k := |ds|;
    assert t[..k] == ds;
    assert t[k..] == [c];
    assert DigitsIn(t, 0, k) by {
      forall i | 0 <= i < k ensures IsDigit(t[i]) {
        assert t[i] == ds[i];
      }
    }
    assert Normalised(t) by {
      assert t[0] == ds[0];
      forall i | 0 <= i < |t| ensures !('A' <= t[i] <= 'Z') {
        assert i < k ==> IsDigit(t[i]);
      }
    }
    assert !StartsWith(t, "half ") by {
      assert IsDigit(t[0]);
    }
    var w := Span(k, k, k, None, k, k);
    assert IsMatch(t, w);
    NumericMatchComplete(t, w);
    SqueezedMatch(t, k, NumericMatch(t).value);
    ParseRead(t, w);
  }

  /** A menu text of digits alone reads its last digit as the food text. */
  lemma ParseBareNumber(ds: string)
    requires |ds| >= 2 && DigitsIn(ds, 0, |ds|)
    ensures ParseQuantity(ds) == Quantity(DigitsValue(ds[..|ds| - 1]) as real, None, [ds[|ds| - 1]])
  {
    var init := ds[..|ds| - 1];
    var c := ds[|ds| - 1];
    assert DigitsIn(init, 0, |init|);
    assert IsDigit(c);
    assert init + [c] == ds;
    ParseDigitsThenChar(init, c);
  }

  /** An empty menu text is one serving of the empty food text. */
  lemma ParseEmpty()
    ensures ParseQuantity("") == Quantity(1.0, None, "")
  {
    assert Normalize("") == "";
    assert Search("", IntDigits(0)) == None;
  }
}
