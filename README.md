# your-body-speaks, modelled in Dafny

your-body-speaks works out daily calorie and macronutrient totals for a meal plan.
It has three inputs:

- a nutrition table, written as a markdown table (`nutrition_facts.md`). Each row gives a
  food's carbohydrate, protein and fat in grams, its reference serving (an amount and a
  unit), and its calories.
- a menu, written in YAML (`menu.yaml`). Its sections list fixed foods and
  `choose N` blocks of alternatives. It may also have a `carbs` section with a
  per-day carbohydrate amount and an `extra` section with additional nutrients.
- a day name (`upper`, `lower` or `rest`).

Each menu entry is free text such as `110g chicken breast`, `half avocado` or
`1 cup rice`. The program parses a quantity off the front of the entry. It then finds
the table row whose name best overlaps the remaining words and scales that row by the
ratio of the quantity to the row's serving. Before any totals are computed, it checks
that every menu entry can be matched and that every `choose N` block offers at least N
options.

The model covers:

- the nutrient arithmetic and the quantity parser (`Quantity`, `NutrientValues`);
- the table loader and lookup (`Nutrition`), with the table as an ordered list of
  unique `(name, record)` pairs;
- the menu reader (`Menus`), over a typed YAML tree (`Yaml`);
- the check and the day's total (`Daily`).

The support modules are:

- `PyStr`: Python's `strip`, `lower` and `split`;
- `Dicts`: insertion-ordered dicts;
- `Wrappers`: the error cases the program raises.

The parts of the source that update state step by step are written as imperative Dafny:

- `NutritionDB` and `Menu` are classes whose methods update their fields.
- `avg`, `match`, `check_menu`, `get_nutrients` and `calculate` are methods with loops.

Each method is proved equal to a function, and the lemmas are stated about those
functions.

The quantity parser's regular expression `^(\d+(?:\.\d+)?)\s*(g|cup)?\s*(.+)$` is
modelled as an explicit backtracking search (`Quantity.Search`). It tries the
alternatives in the order Python's regex engine does: greedy repetitions give
characters back one at a time. Three facts are proved about this search:

- It is sound: any span it returns matches the pattern.
- It is complete: when some span matches the pattern, it finds one.
- It returns the match with the longest integer part.

The code's own edge cases follow from this:

- `"110"` reads as 11 of `"0"`.
- `"110g"` reads as 110 of `"g"`.
- `"2 cups rice"` reads as 2 cups of `"s rice"`.

## Model

| member | source | states |
|---|---|---|
| NutrientValues.PlusLaws | nutrition.py:19-22 | adding nutrients is commutative and associative, and adding zero changes nothing |
| NutrientValues.TimesOver | nutrition.py:24-28 | scaling by a non-zero n and then dividing by n gives back the original nutrients |
| NutrientValues.OverTimes | nutrition.py:24-28 | dividing by n and then scaling by n gives back the original nutrients |
| NutrientValues.Sum | nutrition.py:33-35 | the running total of `avg`'s loop; SumConcat, SumSplit, SumOrderIndependent and SumOfCopies state its properties |
| NutrientValues.Average | nutrition.py:30-36 | `avg` of a non-empty list, the sum divided by the length; Avg, AverageOfCopies and AverageExample state its properties |
| NutrientValues.Avg | nutrition.py:30-36 | the loop fails with ZeroDivisionError exactly on an empty list; otherwise it returns the average, and the average times the list's length is the fieldwise sum |
| NutrientValues.SumConcat | nutrition.py:30-36 | the sum over two lists put together is the sum of their sums |
| NutrientValues.SumSplit | nutrition.py:30-36 | a list's sum is the sum before an item, plus the item, plus the sum after it |
| NutrientValues.SumWithout | nutrition.py:30-36 | a list's sum is the sum without one item, plus that item |
| NutrientValues.SumOrderIndependent | nutrition.py:30-36 | two lists holding the same items in any order have the same sum |
| NutrientValues.SumOfCopies | nutrition.py:30-36 | n copies of an item sum to the item times n |
| NutrientValues.AverageOfCopies | nutrition.py:30-36 | the average of copies of one item is that item |
| NutrientValues.SumOfTwo | nutrition.py:30-36 | the sum of two items is the first plus the second |
| NutrientValues.AverageExample | nutrition.py:30-36 | avg of (10,0,0,40) and (0,10,0,40) is (5,5,0,40) |
| PyStr.LowerChar | nutrition.py:41 | lower-casing a character keeps whether it is white space or a digit, and leaves no upper-case letter |
| PyStr.Lower | nutrition.py:41 | lower-casing keeps the length and lower-cases each character in place |
| PyStr.StripLeft | nutrition.py:41 | the result is a suffix of the input, does not start with white space, and everything removed was white space |
| PyStr.StripRight | nutrition.py:41 | the result is a prefix of the input, does not end with white space, and everything removed was white space |
| PyStr.Strip | nutrition.py:41 | the stripped text neither starts nor ends with white space |
| PyStr.TakeWord | nutrition.py:88 | a word is the longest prefix without white space |
| PyStr.SplitOn | nutrition.py:69 | splitting on a character gives one part exactly when the character does not occur |
| PyStr.StripFixed | nutrition.py:41 | stripping text without white space at either end changes nothing |
| PyStr.LowerFixed | nutrition.py:41 | lower-casing text without upper-case letters changes nothing |
| Quantity.DigitRun | nutrition.py:48 | the run of digits at a position is maximal: the next character is not a digit |
| Quantity.SpaceRun | nutrition.py:48 | the run of white space at a position is maximal |
| Quantity.Alternatives | nutrition.py:48 | every backtracking alternative stays inside the text and is strictly smaller than the stage it came from, so the search ends |
| Quantity.IsMatch | nutrition.py:48 | an independent statement of what a match of the pattern is: digits, an optional `.digits`, spaces, an optional `g` or `cup`, spaces, and a non-empty rest without a newline reaching the end; SearchSound, SearchComplete and NumericMatchComplete relate the search to it |
| Quantity.Search | nutrition.py:48 | the regex engine's backtracking search, trying the alternatives in the engine's order; SearchSound, SearchComplete and SearchLongest state that it is sound, complete and greedy on the integer part |
| Quantity.SearchSound | nutrition.py:48 | any span the search returns is a match of the pattern that extends what was already matched |
| Quantity.SearchComplete | nutrition.py:48 | if some match extends the current stage, the search finds a match |
| Quantity.SearchLongest | nutrition.py:48 | the search's integer part is at least as long as that of any other match |
| Quantity.NumericMatch | nutrition.py:48 | a span found for the pattern is a match: digits, an optional fraction, spaces, an optional `g`/`cup`, spaces, and a non-empty rest without a newline |
| Quantity.NumericMatchComplete | nutrition.py:48 | whenever the text matches the pattern at all, a match is found, with the longest integer part |
| Quantity.NumericFinds | nutrition.py:48 | after a maximal number, the regex engine takes the first alternative that succeeds |
| Quantity.AfterNumberFindsUnit | nutrition.py:48 | a number followed by spaces, a unit, spaces and a non-space rest reads with that unit and that rest |
| Quantity.AfterNumberFindsNone | nutrition.py:48 | a number followed by spaces and a rest that starts with neither `g` nor `cup` reads with no unit |
| Quantity.NormalizeNormalises | nutrition.py:41 | stripped and lower-cased text has no white space at either end and no upper-case letter |
| Quantity.NormalisedFixed | nutrition.py:41 | normalising already-normalised text changes nothing |
| Quantity.NormalizeIdempotent | nutrition.py:41 | normalising twice is normalising once |
| Quantity.ParseNormalised | nutrition.py:43-51 | the three rules on stripped, lower-cased text: `half ` first, then the pattern, then the fallback; ParseHalf, ParseNumeric and ParseFallback state each rule |
| Quantity.ParseQuantity | nutrition.py:39-51 | `parse_quantity`: normalise, then apply the rules; ParseWritten states the round trip for well-written entries, ParseDigitsThenChar and ParseBareNumber the backtracking edge cases |
| Quantity.ParseHalf | nutrition.py:41-45 | text starting with `half ` gives half a unitless serving of the text after it, before the numeric rule is tried |
| Quantity.ParseNumeric | nutrition.py:48-49 | text that matches the pattern gives the matched number, unit and rest, taken from the match with the longest integer part |
| Quantity.ParseFallback | nutrition.py:51 | text that is neither `half ...` nor a match gives one unitless serving of the whole normalised text; the text is returned whole exactly when nothing matches |
| Quantity.ParseWritten | nutrition.py:39-49 | a well-formed entry (digits, optional decimals, spaces, optional unit, spaces, food name) parses back to its number, unit and food name, as in `110g chicken` giving (110, g, chicken) |
| Quantity.ParseDigitsThenChar | nutrition.py:48-49 | digits followed by one other character give the digits' value and that character, so `110g` gives (110, none, `g`) |
| Quantity.ParseBareNumber | nutrition.py:48-49 | bare digits give back their last digit as the rest, so `110` gives (11, none, `0`) |
| Quantity.ParseEmpty | nutrition.py:51 | the empty text gives one unitless serving of the empty name |
| Nutrition.RowOf | nutrition.py:67-79 | one line of the table: skipped when blank, without a bar or with fewer than eight cells, otherwise the lower-cased name with its record; RowNamesLower states the names are lower case |
| Nutrition.Load | nutrition.py:61-79 | `_load`: the rows after the first two lines assigned in order; LoadKeys and LoadLastWins state its keys and that the last row of a name wins |
| Nutrition.Cells | nutrition.py:69 | a line's cells are the pieces between its first and last bar |
| Nutrition.RowNamesLower | nutrition.py:71 | every row name is lower case |
| Nutrition.LoadKeys | nutrition.py:66-79 | the loaded table has unique keys, all lower case, and its keys are exactly the names of the rows after the first two lines |
| Nutrition.LoadLastWins | nutrition.py:72 | a name keeps the record of its last row |
| Nutrition.NutritionDB.constructor | nutrition.py:57-79 | a new database holds the table loaded from the lines |
| Nutrition.IntersectionSmaller | nutrition.py:93-94 | the word overlap is at most the name's word count |
| Nutrition.Score | nutrition.py:92-94 | the overlap score lies between 0 and 1 |
| Nutrition.Best | nutrition.py:88-96 | the loop over the table keeping the strictly best score; BestPick, BestIndex and BestIsHighest state that it keeps the first name with the highest score |
| Nutrition.BestNoneIffZero | nutrition.py:89-96 | the loop keeps no name exactly when the best score stays 0 |
| Nutrition.BestIsHighest | nutrition.py:91-96 | no name scores above the best score |
| Nutrition.BestIndex | nutrition.py:91-96 | the kept name is the first in table order with the best score |
| Nutrition.BestIsKey | nutrition.py:91-96 | the kept name is a key of the table |
| Nutrition.BestPick | nutrition.py:91-96 | the kept name scores at least as much as every name and strictly more than every earlier one |
| Nutrition.NutritionDB.BestMatch | nutrition.py:88-96 | the loop over the table computes the best name and score |
| Nutrition.NutritionDB.Match | nutrition.py:81-98 | the method returns the lookup result of the specification |
| Nutrition.MatchText | nutrition.py:81-98 | `match`: the exact key, or the best name when its score is above 0.5; MatchNone, MatchPick and MatchIsName state its properties |
| Nutrition.MatchNone | nutrition.py:83-98 | an exact key wins outright; otherwise nothing is found exactly when no name scores above 0.5 |
| Nutrition.MatchPick | nutrition.py:88-98 | a fuzzy result scores above 0.5, scores highest, and is the first name in table order to do so |
| Nutrition.MatchIsName | nutrition.py:81-98 | any name the lookup returns is a key of the table |
| Nutrition.PerServing | nutrition.py:111-116 | the three branches of `get` that divide by the serving amount: both in grams, equal units, or no unit; GetScales states the resulting scaling |
| Nutrition.Ratio | nutrition.py:110-121 | per-serving scaling divides the quantity by the serving amount, or fails on a zero amount; a mismatched unit scales by the quantity itself |
| Nutrition.GetParsed | nutrition.py:100-128 | get fails only with "Item not found" for the same menu text, or with a division by zero |
| Nutrition.ItemNutrients | nutrition.py:100-128 | `get`: parse, match, then scale the record; GetScales, GetFailsIffMissing and GetAtServing state its properties |
| Nutrition.NutritionDB.Get | nutrition.py:100-128 | the method returns the specified scaled nutrients or error |
| Nutrition.GetScales | nutrition.py:108-128 | every field is the stored field times the ratio: quantity over serving amount when the units agree or none is given, the quantity when they differ |
| Nutrition.GetAtServing | nutrition.py:111-128 | a quantity equal to the reference serving gives ratio 1 and the stored values |
| Nutrition.HalfServingExample | nutrition.py:111-128 | 50 g of a 100 g serving with 20 g carbohydrate gives 10 g |
| Nutrition.ItemExists | nutrition.py:130-133 | an item exists when the lookup of its parsed text finds a name |
| Nutrition.NutritionDB.Exists | nutrition.py:130-133 | the method returns whether the item exists |
| Nutrition.GetFailsIffMissing | nutrition.py:100-106 | get raises "Item not found" exactly when exists is false or the found name is empty |
| Nutrition.EmptyNameExistsButNotFound | nutrition.py:105-106 | an empty row name makes exists true while get still raises "Item not found" |
| Dicts.Get | nutrition.py:108 | a dict lookup (`self.items[name]`, and `carbs_per_day.get(day)` at main.py:48) fails exactly on a missing key, and otherwise returns a stored pair's value |
| Dicts.Put | nutrition.py:72 | assigning keeps the key order and adds a new key at the end |
| Dicts.PutGet | nutrition.py:72 | after assigning, the key reads the new value and other keys are unchanged |
| Dicts.FromPairsKeys | nutrition.py:72 | a dict built by assignments has unique keys, namely those assigned |
| Dicts.FromPairsLastWins | nutrition.py:72 | the last assignment to a key wins |
| Menus.Menu.constructor | menu.py:13-19 | a fresh menu has zero extra, no carbohydrate item, and empty per-day amounts, groups and options |
| Menus.ExtraOf | menu.py:35-40 | the nutrients of a non-empty extra section; ExtraAbsentIsZero and ExtraOnlyProtein state its defaults |
| Menus.ExtraAbsentIsZero | menu.py:35-40 | each of carbs, protein, fat and calories that the section lacks counts as 0 |
| Menus.ExtraOnlyProtein | menu.py:35-40 | an extra section naming only protein gives that protein and 0 for everything else |
| Menus.Menu.ParseExtra | menu.py:31-40 | a falsy extra section leaves extra unchanged; otherwise each of carbs, protein, fat and calories is read, with 0 for an absent key; nothing else changes |
| Menus.Menu.ParseCarbs | menu.py:42-50 | the carbohydrate item and the per-day amounts come from the last entry of a truthy section; nothing else changes |
| Menus.CarbsOf | menu.py:42-50 | `_parse_carbs` on the two carbohydrate fields: the last entry of a truthy section wins; PerDay, PerDayOne, DayAmountWithUnit and DayAmountBare state the per-day amounts |
| Menus.PerDay | menu.py:48-50 | the per-day amounts have exactly the days of the section as keys |
| Menus.PerDayOne | menu.py:48-50 | each day's amount is the quantity parsed from the string form of its value |
| Menus.DayAmountWithUnit | menu.py:48-50 | an amount `150g` reads as 150 |
| Menus.DayAmountBare | menu.py:48-50 | a bare amount such as `150` reads as 15, because the regex needs a non-empty rest |
| Menus.ChooseCount | menu.py:66-68 | the `choose\s+(\d+)` match at the start of a key and its N; ChooseCountWritten states both directions of when it matches, and ChooseWritten, ChooseNeedsSpace and ChooseCapitalised give the cases |
| Menus.ChooseWritten | menu.py:66-68 | `choose`, one or more spaces, and digits give the digits' value as N |
| Menus.ChooseCountWritten | menu.py:66-68 | a key gives N exactly when it is `choose`, at least one whitespace character, and digits worth N, followed by no further digit; every other key opens no block |
| Menus.ChooseNeedsSpace | menu.py:66 | `choose` not followed by whitespace, as in `choose2` or `chooses 3`, opens no block |
| Menus.ChooseCapitalised | menu.py:66 | the choose match is case-sensitive: `Choose ...` is not a choose key |
| Menus.ChoicesOf | menu.py:71-76 | every option added carries the block's N and number, and there are at most as many as listed |
| Menus.OpenBlock | menu.py:65-76 | one key of a mapping item: a choose key opens the next block with its options, other keys are ignored; OpenBlockKeepsNumbered states that it keeps the numbering |
| Menus.SectionsOf | menu.py:52-76 | `_parse_sections` from a given state, over the sections in document order; SectionsNumbered, SectionsFixed and SectionsErrSticks state its properties |
| Menus.SectionsErrSticks | menu.py:56-76 | once an error is raised, the rest of the file is not read |
| Menus.Menu.ParseSections | menu.py:52-76 | the loop state after the sections equals the section reading of the specification, or fails with its error; extra and carbohydrates are unchanged |
| Menus.Menu.ParseItems | menu.py:60-76 | the loop over a section's items builds the specified groups and options |
| Menus.Menu.ParseBlock | menu.py:65-76 | the loop over a mapping item's keys builds the specified groups and options |
| Menus.Menu.ParseOptions | menu.py:71-76 | the loop over a block's options appends exactly the specified options and changes nothing else |
| Menus.Menu.Load | menu.py:23-29 | loading sets extra, then the carbohydrate fields, then the groups, each as specified |
| Menus.LoadMenu | menu.py:13-29 | building a menu from a document succeeds exactly when the document reads without error, and the menu holds what the document describes |
| Menus.MenuOf | menu.py:13-76 | the menu a loaded document gives; MenuNumbered, MenuSections and MenuFixed state its properties |
| Menus.MenuNumbered | menu.py:54-73 | the choose blocks are numbered 1, 2, ... in order, and every option's number is a block whose N equals the option's N |
| Menus.SectionsNumbered | menu.py:52-76 | reading the sections keeps the blocks numbered |
| Menus.MenuSections | menu.py:52-76 | the menu's groups, options and blocks are what the section reading builds from a fresh state |
| Menus.MenuFixed | menu.py:57-63 | the fixed groups are the bare strings of the non-reserved list sections, each as a one-item group, in document order |
| Menus.SectionsFixed | menu.py:57-63 | section reading appends exactly the bare-string groups |
| Menus.AllItemsOf | menu.py:78-87 | `all_items()`; AllItemsMember and AllItemsLength state its membership and length |
| Menus.ConcatMember | menu.py:81-84 | an item is in the concatenated groups exactly when some group holds it |
| Menus.ConcatLength | menu.py:81-84 | concatenating groups keeps every item |
| Menus.AllItemsMember | menu.py:78-87 | an item is validated exactly when a fixed group or an option holds it, or it is the non-empty carbohydrate item |
| Menus.AllItemsLength | menu.py:78-87 | all_items has the sum of the group sizes as its length, plus one when a carbohydrate item is set |
| Menus.Menu.AllItems | menu.py:78-87 | the loops build the fixed items, then the option items, then the carbohydrate item |
| Daily.Missing | main.py:13 | the missing list is never longer than the item list |
| Daily.MissingMember | main.py:13 | an item is reported missing exactly when it is listed and not found |
| Daily.FindMissing | main.py:13 | the comprehension keeps the items that do not exist, in order |
| Daily.OptionCountIsMultiplicity | main.py:21 | the options counted for a block are the options carrying its number |
| Daily.CountOptions | main.py:21 | the comprehension counts the options of one block |
| Daily.GroupCheck | main.py:20-23 | the loop over `choose_groups`; GroupCheckPasses and GroupCheckFails state when it passes and what it reports |
| Daily.GroupCheckPasses | main.py:20-23 | the block check passes exactly when every block has at least N options |
| Daily.GroupCheckFails | main.py:20-23 | a failed block check reports the first short block, with its N and its option count |
| Daily.CheckGroups | main.py:20-23 | the loop over the blocks gives the specified check |
| Daily.CheckSpec | main.py:11-23 | `check_menu`: missing items first, then the blocks; CheckPasses and CheckReportsMissingFirst state its properties |
| Daily.CheckPasses | main.py:11-23 | check_menu passes exactly when every item exists and every block has enough options |
| Daily.CheckReportsMissingFirst | main.py:13-18 | a missing item fails the check with a missing-foods error that lists it, before the blocks are looked at |
| Daily.CheckMenu | main.py:11-23 | the method gives the specified check result |
| Daily.GetAll | main.py:28 | `[db.get(item) for item in items]`, stopping at the first error; GetAllValues and GetAllFails state its properties |
| Daily.GetAllValues | main.py:28 | getting every item succeeds with one value per item |
| Daily.GetAllFails | main.py:28 | getting the items fails with the first failing item's error |
| Daily.GetEach | main.py:28 | the comprehension looks up each item in order |
| Daily.GroupNutrients | main.py:26-28 | `get_nutrients`; GroupValue states that it is the average of the items' nutrients |
| Daily.GroupValue | main.py:26-28 | a group's nutrients are the average of its items' nutrients, whose product with the group's size is their sum; one item stands for itself |
| Daily.GetNutrients | main.py:26-28 | the method returns the group average, or the item's error, or a division by zero on an empty group |
| Daily.AddGroups | main.py:35-37 | the loop over `menu.fixed`; AddGroupsSum and AddGroupsFails state its result |
| Daily.AddGroupsSum | main.py:35-37 | the fixed part adds the sum of the fixed groups' averages |
| Daily.AddGroupsFails | main.py:35-37 | the fixed part fails with the first failing group's error |
| Daily.AddFixed | main.py:35-37 | the loop over the fixed groups gives the specified sum |
| Daily.Grouped | main.py:40-42 | the loop building `grouped`; GroupedSpec and GroupedNonEmpty state what it holds |
| Daily.SetDefaultAppendGet | main.py:42 | `setdefault(...).append` changes only its block's entry: it extends the entry, or creates it with N and one value |
| Daily.GroupedSpec | main.py:39-42 | grouped holds, for each block number carried by some option, the N of its first option and the averages of all its options in order |
| Daily.GroupedUnique | main.py:39-42 | grouped holds each block number at most once, as a dict keyed by the block number does |
| Daily.GroupOptions | main.py:39-42 | the loop over the options builds the specified grouping |
| Daily.GroupedNonEmpty | main.py:42 | every grouped entry has at least one option |
| Daily.AddChosen | main.py:44-45 | the loop over `grouped`; AddChosenSum states that it adds each block's N times its average |
| Daily.AddChosenSum | main.py:44-45 | each block adds N times the average of its options |
| Daily.AddAverages | main.py:44-45 | the loop over grouped adds the specified portions |
| Daily.ChooseAllEatsAll | main.py:44-45 | a block choosing all n of its n options counts each option once |
| Daily.CarbPortion | main.py:47-49 | the carbohydrate portion is added only with a non-empty item and a non-zero amount for the day |
| Daily.CarbTextParses | main.py:49 | the looked-up text `"{grams}g {item}"` parses back to that many grams of the item |
| Daily.CarbPortionGrams | main.py:47-49 | the carbohydrate portion is the table entry for the item, scaled to that many grams |
| Daily.CarbsOfDay | main.py:47-49 | the method gives the specified carbohydrate portion |
| Daily.ExtraPart | main.py:52-60 | the extra with 4 kcal per g of carbohydrate and protein and 9 kcal per g of fat added to its calories; ExtraProteinExample and OneItemDay state its effect |
| Daily.AddCarbsAndExtra | main.py:47-60 | the method adds the carbohydrate portion and then the extra, with 4 kcal per g of carbohydrate and protein and 9 per g of fat |
| Daily.DayTotal | main.py:31-62 | `calculate`; DayTotalParts, OneItemDay and ChooseTwoOfTwo state its properties |
| Daily.DayTotalParts | main.py:31-62 | the day's total is the fixed groups' sum, plus each block's portion (one entry per block number), plus the carbohydrate portion and the extra |
| Daily.Calculate | main.py:31-62 | the method returns the specified day total or the first error raised |
| Daily.OneItemDay | main.py:31-62 | a menu of one fixed item and an extra totals the item plus the extra with its calories added |
| Daily.ExtraProteinExample | main.py:52-60 | an extra of 10 g protein adds 40 kcal |
| Daily.ChooseTwoOfTwo | main.py:40-45 | a `choose 2` block with two options adds both of them |

## Left out

- File reading is not modelled: the table loader takes the file's lines, and the menu
  reader takes the loaded YAML tree (`Yaml.Node`). Converting a cell with `float()` is a
  parameter (`num`) of the loader.
- `yaml.safe_load` is not modelled. A mapping is read as its entries in document order;
  a repeated key keeps its first position and its last value.
- Logging is not modelled: the unit-mismatch warning in `get` and the output of `main`.
  Only the resulting ratio is kept.
- `format_row` (main.py:65-77) and `main` (main.py:80-101) are not modelled. They round
  floats, format percentages and write `out.md`. `DAYS` (main.py:8) is used only by
  `main`, so the day is a parameter of `Daily.Calculate`.
- Floating point is modelled as `real`. Rounding is not modelled.
- Daily.CarbText: the f-string turns the float day amount into text with Python's
  `str`. This is a parameter `show`.
- Daily.CarbTextParses and Daily.CarbPortionGrams assume `show` writes the amount as
  plain decimal digits. They also hold only for item names that are already stripped
  and lower case, with no newline, that start with neither a digit nor a unit.
- Dynamic-typing crashes are not modelled: a list where a mapping is expected, a
  non-string option, a mapping option whose first value is null, `str()` of a list,
  or an extra field that is not a number. Such
  values read as absent (`Yaml.Items`, `Menus.Strings`), as 0 (`Menus.NumberOr0`) or
  as `""` (`Menus.StrOf`). `str(None)` is `"None"`. A mapping option whose first value
  is null is appended as `None` by menu.py:75-76, and `all_items` then fails on
  `extend(None)`; `Menus.ChoicesOf` gives it an empty group instead, so the check
  passes and the day's total fails with ZeroDivision.
- Menus.ChoicesOf treats a mapping option with no entries as an error (`EmptyOption`).
  The code raises IndexError there.
- Unicode is not modelled. `lower()` folds only `A`-`Z`, and `\d` matches only ASCII
  digits. White space is Python's set of white space code points.
- Nutrition.GetParsed has a case where a found name is missing from the table. That
  case cannot happen (Nutrition.MatchIsName); the model returns "Item not found" there.

Where the code's behaviour differs from what its comments and docstrings suggest, the
model follows the code:

- `choose` keys are matched case-sensitively (Menus.ChooseCapitalised).
- A bare number such as `150` in the `carbs` section reads as 15 (Menus.DayAmountBare).
- `2 cups rice` reads with unit `cup` and the rest `s rice`.
- A table row with an empty name makes `exists` true while `get` still fails
  (Nutrition.EmptyNameExistsButNotFound).
