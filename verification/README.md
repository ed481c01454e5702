# eda_ru_parser core, modelled in Dafny

eda_ru_parser harvests recipes from the catalogue pages of eda.ru. It has three pieces of real logic, and this project models each of them as pure Dafny functions with proved contracts:

- **The page harvest.**
  - `parser_generator` yields the result of `load_and_parse_page(page)` for pages 1 to `PAGES_AMOUNT` in turn.
  - It yields a page again when the outcome sent back is not OK, up to `retries_amount` (10) times.
  - `run_with_proxy` pumps that generator. It sends back OK after a produced value and ERROR after a `requests.HTTPError`. It rotates the Tor circuit and sleeps the cooldown after each produced value.
  - At `StopIteration` it returns the produced values. It also tallies `err`, the number of HTTP errors.
- **The listing filter.** After a page is fetched, `load_and_parse_page` keeps the `itemListElement` entries typed "Recipe", in order. It extracts each one with `parse_recipe_from_json`, which reads:
  - the name;
  - the yield's leading integer;
  - the numbered, right-trimmed instruction text;
  - the ingredient lines;
  - the four nutrition values.
- **The ingredient parser.** `split_ingredient` turns a line such as "мука 1/2 кг" into `{name: {unit: amount}}`, as follows.
  - A line containing "по вкусу" maps the text before that marker to the marker, with amount 1.
  - Any other line is split into whitespace tokens. The last token that starts with a digit is the amount, read by `Fraction` after "," becomes ".".
  - The tokens before the amount token form the name. The tokens after it form the unit.

## Modules

- `Py`: `Option`, the Python exceptions that the core can raise, and `Result`, meaning a value or a raised exception.
- `Text`: the `str` operations the core uses:
  - `split()` with no argument, over every character for which `str.isspace` is true;
  - `" ".join`, `rstrip`, `in`, `split(sep)[0]` and `replace`.
- `Numbers`: `int()` of a whitespace-free token, including PEP 515 underscores, the `Fraction` string grammar on whitespace-free strings, and `str` of an index.
- `JsonValue`: the JSON values that `json.loads` produces. A dict is its entries in insertion order. The module also has `d.get`, `d[k]` and iteration.
- `Ingredients`: `split_ingredient`.
- `Recipes`: `parse_recipe_from_json`, and the output dicts built from its result.
- `Listing`: the part of `load_and_parse_page` after the fetch.
- `Proxy`: `StepResult` and the `run_with_proxy` loop.
  - The generator's answer to each `send` is an event: a produced value, an `HTTPError`, `StopIteration`, or any other exception.
  - The `send`s, the NEWNYM rotations and the cooldowns are effects in a trace.
- `Harvest`: `parser_generator` as a step function `Send` on an explicit frame: not started, suspended at page p on attempt a, or returned.
  - `Schedule` is an independent reference for it. It describes each page as one run of yields that ends at the page's first OK or at its tenth yield.
- `Composition`: the driver and the generator run together, with each yield's fetch given as an input. This module carries the one finding below.

Amounts are exact rationals (`real`). `os.linesep` is "\n".

## Model

| member | source | states |
|---|---|---|
| Ingredients.SplitIngredient | eda_ru_parser/parser.py:71-96 | in the model only `Fraction` can make the parse fail, with ValueError or ZeroDivisionError (the program can also raise OverflowError from `float`, see Left out); a line containing "по вкусу" always parses, to unit "по вкусу" and amount 1, with a name that is the untrimmed text before the first occurrence of the marker |
| Ingredients.SplitIngredientScan | eda_ru_parser/parser.py:79-96 | the reverse scan over the tokens, which builds the unit label until it meets a digit-led token, gives the same result as the token-level definition |
| Ingredients.FromTokens | eda_ru_parser/parser.py:79-96 | a line with no digit-led token gives name "", amount 0 and all its tokens in the unit; a failure can only be `Fraction` rejecting some digit-led token, with ValueError or ZeroDivisionError |
| Ingredients.ScanTokens | eda_ru_parser/parser.py:79-96 | the reverse loop over the `split()` tokens, with its `break` at the first digit-led token from the end, computes exactly the token-level result `FromTokens` |
| Ingredients.LastAmountIndex | eda_ru_parser/parser.py:85-90 | the amount token is a digit-led token, and no token after it starts with a digit; with no such token there is no amount |
| Ingredients.AmountIsLastNumericToken | eda_ru_parser/parser.py:85-89 | without the marker, the amount comes from the last digit-led token, and the line parses exactly when `Fraction` accepts that token with "," replaced by "." |
| Ingredients.TokensReassemble | eda_ru_parser/parser.py:85-94 | name tokens, then amount token, then unit tokens give back the line's token list; the name is the earlier tokens joined by single spaces; the unit is each later token followed by one space, or "" when there is none |
| Ingredients.FromTokensReassemble | eda_ru_parser/parser.py:85-94 | the same reassembly, stated on any token list that has an amount token |
| Ingredients.NoAmountToken | eda_ru_parser/parser.py:79-96 | with no digit-led token the parse succeeds with name "" and amount 0, and the unit holds all the tokens, each followed by a space |
| Ingredients.EmptyLine | eda_ru_parser/parser.py:79-96 | the empty line gives `{"": {"": 0}}` |
| Ingredients.ReparseCanonical | eda_ru_parser/parser.py:79-96 | for a line that contains "по вкусу" neither as written nor after collapsing its whitespace to single spaces, parsing the collapsed line gives the same result |
| Ingredients.NameAmountUnit | eda_ru_parser/parser.py:79-96 | the line "<name words> <amount> <unit words>" parses to exactly those parts, and it fails exactly when `Fraction` rejects the amount |
| Ingredients.RatioAmount | eda_ru_parser/parser.py:89 | an amount token "a/b" is exactly a/b, and "a/0" raises ZeroDivisionError |
| Ingredients.CommaDecimalAmount | eda_ru_parser/parser.py:89 | an amount token with a decimal comma, "a,f", is the decimal a.f |
| Ingredients.GluedUnitAmount | eda_ru_parser/parser.py:89 | a whitespace-free unit glued to its number, as in "2шт", makes the parse raise ValueError |
| Ingredients.TabbedMarkerExample | eda_ru_parser/parser.py:75-96 | "по\tвкусу" has no marker and parses to name "", unit "по вкусу " and amount 0, while its collapsed form "по вкусу" parses to unit "по вкусу" and amount 1, so collapsing whitespace changes the result when it creates the marker |
| Text.SplitTwoWords | eda_ru_parser/parser.py:79 | `str.split()` of two words around one whitespace character gives exactly those two words |
| Ingredients.SaltToTasteExample | eda_ru_parser/parser.py:75-77 | "соль по вкусу" gives name "соль " with its trailing space, unit "по вкусу" and amount 1 |
| Ingredients.UnitLabelSpaced | eda_ru_parser/parser.py:92 | the unit label is the tokens joined by single spaces plus one trailing space, or "" when there are no tokens |
| Ingredients.SplitUnitLabel | eda_ru_parser/parser.py:92 | splitting the unit label gives back its tokens |
| Text.Split | eda_ru_parser/parser.py:79 | the tokens of `str.split()` are nonempty and hold no whitespace |
| Text.Join | eda_ru_parser/parser.py:92-94 | `sep.join` starts with the first item followed by the separator, and with an empty separator it is the plain concatenation; `Text.SplitJoin` is its inverse for single spaces |
| Text.SplitJoin | eda_ru_parser/parser.py:94 | splitting words that were joined by single spaces gives back the words |
| Text.SplitKeepsText | eda_ru_parser/parser.py:79 | the tokens, concatenated, are the line with every whitespace character removed |
| Text.SplitWordThen | eda_ru_parser/parser.py:79 | a word followed by whitespace, or by nothing, is the first token |
| Text.RStrip | eda_ru_parser/parser.py:129 | `rstrip()` keeps a prefix that ends in a non-space, and it removes only whitespace |
| Text.Find | eda_ru_parser/parser.py:76-77 | it finds the first occurrence of the marker, or reports that there is none |
| Text.Contains | eda_ru_parser/parser.py:76 | `marker in line` holds exactly when the marker occurs somewhere in the line |
| Text.ReplaceChar | eda_ru_parser/parser.py:89 | `replace(",", ".")` changes every comma and nothing else |
| Numbers.ParseInt | eda_ru_parser/parser.py:126 | `int()` of a whitespace-free token can fail only with ValueError |
| Numbers.IntOfDecimalString | eda_ru_parser/parser.py:126 | `int()` reads back every decimal numeral and its negation |
| Numbers.ParseFraction | eda_ru_parser/parser.py:89 | `Fraction()` of a whitespace-free string can fail only with ValueError, or with ZeroDivisionError for a zero denominator |
| Numbers.FractionOfRatio | eda_ru_parser/parser.py:89 | "a/b" is a/b when b > 0, and "a/0" raises ZeroDivisionError |
| Numbers.FractionOfDecimal | eda_ru_parser/parser.py:89 | "a.f" is the decimal value a.f |
| Numbers.FractionOfInteger | eda_ru_parser/parser.py:89 | a numeral is its own value |
| Numbers.DecimalString | eda_ru_parser/parser.py:129 | `str` of a step number is digits with no leading zero, and its value is the number |
| JsonValue.Get | eda_ru_parser/parser.py:157 | `d.get(key)` finds an entry with that key, or reports that the key is absent |
| JsonValue.GetAt | eda_ru_parser/parser.py:104-111 | in a dict with distinct keys, every entry is found by its own key |
| JsonValue.Index | eda_ru_parser/parser.py:125-137 | `d[key]` gives the bound value; it raises KeyError for a missing key and TypeError when the value subscripted is not a dict |
| JsonValue.Iterate | eda_ru_parser/parser.py:129 | iteration gives a list's items, a string's characters or a dict's keys, and raises TypeError for a scalar |
| Recipes.ServesAmount | eda_ru_parser/parser.py:126 | it succeeds exactly when the yield is a string whose first token is an integer, and then gives that integer; otherwise AttributeError for a non-string, IndexError for a yield with no token, and ValueError (from `int()`) for a first token that is not an integer |
| Recipes.NumberedSteps | eda_ru_parser/parser.py:128-130 | line i is "i. " plus the right-trimmed step, numbered from the start value; a non-string step raises AttributeError |
| Recipes.IngredientOf | eda_ru_parser/parser.py:76-79 | a string item is parsed by `split_ingredient`; a list or dict item raises AttributeError at `.split`; a None, boolean or number raises TypeError at `in` |
| Recipes.ParseIngredients | eda_ru_parser/parser.py:132 | the list succeeds exactly when every line parses, and then it has one ingredient per line, in order, each the parse of its line |
| Recipes.IngredientsRaiseAtFirstFailure | eda_ru_parser/parser.py:132 | a failing list raises the exception of its first failing line, every earlier line having parsed |
| Recipes.EnergyOf | eda_ru_parser/parser.py:133-138 | the four nutrition values are copied verbatim, and it succeeds exactly when all four keys are present |
| Recipes.YieldOf | eda_ru_parser/parser.py:126 | serves_amount is read from "recipeYield" when that key exists |
| Recipes.TextOf | eda_ru_parser/parser.py:128-131 | the text is the numbered steps joined by the line separator |
| Recipes.IngredientsOf | eda_ru_parser/parser.py:132 | the ingredients are the parsed "recipeIngredient" lines |
| Recipes.NutritionOf | eda_ru_parser/parser.py:133-138 | the energy values are read from "nutrition" |
| Recipes.Assemble | eda_ru_parser/parser.py:125-138 | the recipe is built exactly when all five reads succeed; otherwise the exception is that of the first failing read, in the order name, yield, instructions, ingredients, nutrition |
| Recipes.ParseRecipe | eda_ru_parser/parser.py:99-140 | a non-dict gives None; a dict never gives None |
| Recipes.ExtractedIffExtractable | eda_ru_parser/parser.py:113-138 | a dict is extracted exactly when every access succeeds; the field-check loop rejects nothing |
| Recipes.ExtractedNameAndServes | eda_ru_parser/parser.py:125-126 | the name is copied verbatim, and serves_amount is the integer value of the yield's first token |
| Recipes.ExtractedText | eda_ru_parser/parser.py:128-131 | the text has one line per instruction, "i. " plus the right-trimmed step, numbered from 1 and joined by the line separator |
| Recipes.ExtractedIngredients | eda_ru_parser/parser.py:132 | the ingredients are `split_ingredient` of each line, with the same length and order |
| Recipes.ExtractedEnergy | eda_ru_parser/parser.py:133-138 | the four energy values are calories, proteinContent, fatContent and carbohydrateContent, copied verbatim |
| Recipes.MissingNameRaises | eda_ru_parser/parser.py:121-125 | a record without "name" raises KeyError and is not turned into None |
| Recipes.YieldLeadingNumber | eda_ru_parser/parser.py:126 | a yield "4 порции" gives 4 |
| Recipes.RecipeJson | eda_ru_parser/parser.py:104-140 | the output dict has the five layout keys, and each holds the extracted value |
| Recipes.EnergyJson | eda_ru_parser/parser.py:133-138 | the output energy dict binds calories, protein, fat and carbohydrates to the extracted values |
| Recipes.IngredientJson | eda_ru_parser/parser.py:96 | a parsed ingredient becomes `{name: {unit: amount}}` |
| Recipes.IngredientsJson | eda_ru_parser/parser.py:132 | the output ingredient list has one dict per ingredient, in order |
| Listing.FilterEntries | eda_ru_parser/parser.py:155-165 | it succeeds exactly when every entry is a dict and every entry tagged "Recipe" extracts |
| Listing.FilterExtractsSelection | eda_ru_parser/parser.py:155-165 | a successful loop gives one recipe per entry tagged "Recipe", in listing order, each the extraction of its entry |
| Listing.RecipeEntries | eda_ru_parser/parser.py:155-158 | the selected entries are entries of the listing tagged "Recipe", and there are no more of them than entries |
| Listing.FilterRaisesAtFirstFailure | eda_ru_parser/parser.py:155-163 | the raised exception belongs to the first failing entry: a non-dict raises AttributeError, a failing "Recipe" entry raises its own exception |
| Listing.FilterListing | eda_ru_parser/parser.py:151-165 | a non-dict listing gives []; a missing "itemListElement" raises KeyError; a non-list value gives []; otherwise the entries are filtered |
| Listing.ListingBound | eda_ru_parser/parser.py:151-165 | a page never gives more recipes than its listing has entries, and each recipe is the extraction of one of its entries tagged "Recipe" |
| Listing.UntaggedIgnored | eda_ru_parser/parser.py:157-158 | a dict entry that is not tagged "Recipe" changes nothing |
| Proxy.Start | eda_ru_parser/proxy.py:28-36 | the loop starts with no values, no errors, nothing to send but None, and an empty trace |
| Proxy.Step | eda_ru_parser/proxy.py:41-53 | a produced value is appended and the next outcome is OK, followed by exactly one rotation and then one cooldown; an HTTPError appends nothing, does not rotate or sleep, sets the next outcome to ERROR and adds exactly 1 to err |
| Proxy.StopIndex | eda_ru_parser/proxy.py:39-55 | the loop ends at the first `StopIteration` or escaping exception |
| Proxy.Feedback | eda_ru_parser/proxy.py:36-52 | the first send carries None, and every later send carries the outcome of the step before it |
| Proxy.StepTracks | eda_ru_parser/proxy.py:41-53 | each step keeps the values, the error count, the sent outcomes and the rotation count in line with the reference accounts |
| Proxy.ValuesAndErrorsPartition | eda_ru_parser/proxy.py:41-53 | every step is one produced value or one error |
| Proxy.RunWithProxy | eda_ru_parser/proxy.py:22-58 | after `StopIteration`, the result is the produced values in order, err is the number of HTTPErrors, the sends carry None and then each step's outcome, and there is one rotation and one cooldown per value; any other exception escapes |
| Harvest.Send | eda_ru_parser/parser.py:168-177 | a fresh generator accepts only None, and None starts it at page 1; an OK outcome, or any outcome of the page's tenth yield, enters the next page or finishes; any other outcome yields the same page again |
| Harvest.Enter | eda_ru_parser/parser.py:171-174 | entering page p yields p on attempt 1, and the generator finishes past the last page |
| Harvest.PumpIsSchedule | eda_ru_parser/parser.py:171-177 | a suspended generator yields exactly the reference schedule of its page, for the attempts it has left |
| Harvest.TraceIsSchedule | eda_ru_parser/parser.py:168-177 | the generator's yields are exactly the reference schedule from page 1 |
| Harvest.ScheduleError | eda_ru_parser/parser.py:173-177 | an ERROR before the page's last attempt repeats the page |
| Harvest.ScheduleShape | eda_ru_parser/parser.py:171-177 | every schedule stays in its pages, skips none, and keeps the retry rules |
| Harvest.TraceProperties | eda_ru_parser/parser.py:168-177 | pages run from 1 to n without skipping one; no page is yielded more than ten times; an OK moves straight to the next page; an ERROR moves on only after the page's tenth yield |
| Harvest.AllOkYieldsEachPageOnce | eda_ru_parser/parser.py:171-177 | with all outcomes OK, the pages yielded are exactly 1..n, and then the generator stops |
| Harvest.SecondPageAlwaysFails | eda_ru_parser/parser.py:170-177 | with 3 pages and page 2 always failing, the yields are 1, then 2 ten times, then 3: 12 in all |
| Composition.AsWrittenAtMostOneError | eda_ru_parser/parser.py:173-174 | as written, a run that returns has at most one HTTP error, because the first one finishes the generator |
| Composition.HarvestAsWritten | eda_ru_parser/parser.py:190-191 | the program as written: with no pages the generator stops at once and the run returns no recipes, no errors and the single `None` send; otherwise page 1 is requested first, every request is a catalogue page, and the requests match the fetch results one for one |
| Composition.HarvestCorrected | eda_ru_parser/parser.py:190-191 | the corrected program starts the same way and keeps the same page range and request count |
| Composition.Loop | eda_ru_parser/parser.py:143-177 | every page the composed run requests is one of the n catalogue pages; each fetch result is consumed by one request, and a run still pending has made exactly one request more than it has results for |
| Composition.AsWrittenFirstFailureEnds | eda_ru_parser/parser.py:173-177 | as written, for any number of pages and any later fetches, a failed first fetch makes the run return at once with no recipes and one error, page 1 being the only page requested |
| Composition.AsWrittenNeverRetries | eda_ru_parser/parser.py:173-177 | as written, a failed first fetch ends the run at once: page 1 is not retried and page 2 is never requested |
| Composition.CorrectedRetries | eda_ru_parser/parser.py:173-177 | corrected, the same inputs request page 1 again and then page 2, and return both pages' recipes with err 1 |
| Composition.CorrectedPagesArePumped | eda_ru_parser/parser.py:171-177 | corrected, the pages requested are the generator's yields for the fetches' outcomes |
| Composition.CorrectedFollowsSchedule | eda_ru_parser/parser.py:168-177 | corrected, the pages requested are exactly the generator's trace for the fetches' outcomes |
| Composition.CorrectedRetriesFailedPages | eda_ru_parser/parser.py:168-177 | corrected, the requested pages run from 1 to n without skipping one; no page is requested more than ten times; a page that loaded is followed by the next page; a failed fetch is followed by the same page again unless it was that page's tenth request |
| Composition.RunAccounts | eda_ru_parser/proxy.py:39-55 | in a run that returns, each requested page accounts for one value or one error |

## Left out

- The HTTP request, the random `User-Agent` choice and the BeautifulSoup extraction of the embedded JSON (`random_headers`, `get_recipes_json`, and the `requests.get` call in `load_and_parse_page`). These are network I/O, randomness and foreign libraries. The listing JSON of each page is an input, and a fetch either delivers it or raises `HTTPError`. That second outcome is an abstraction: `requests.get` raises `requests.HTTPError` only from `raise_for_status()`, which the program never calls, so as written no fetch raises it and the ERROR branch of `run_with_proxy` is not reached. The model keeps the outcome so that the driver's and the generator's retry logic can be stated at all.
- The Tor controller, the SOCKS proxy set-up and the `socket.socket` patch. These are process-wide I/O. The NEWNYM signal and the cooldown `time.sleep` are kept only as the `Rotate` and `Cooldown` trace effects.
- Other exceptions the network can raise inside the generator, such as `ConnectionError`. They escape the driver like the listing filter's exceptions, which the model does cover.
- The `main` function: writing one JSON file per recipe, `_flatten`, the `__main__` block, the command-line parser and packaging. These contain no logic beyond I/O.
- Every `print`, including the per-page failure notice. That notice prints `pages_amount` where `page` is meant.
- `float(...)`. Amounts are exact rationals, so the model does not round them.
- Ingredients.SplitIngredient: `float(Fraction(...))` raises OverflowError when the amount is beyond the float range, as for the line "x 1e400 г", which `Fraction` accepts. The model has no float range, so it gives `Ok` with the exact amount there, and its claim that only `Fraction` makes the parse fail holds of the model, not of the program.
- Unicode digits. `str.isdigit`, `int()` and `Fraction` all accept every Unicode decimal digit (`int("٤") == 4`); the model, `Numbers.DigitsValue` included, reads the ASCII digits only.
- Surrounding whitespace in `int()` and `Fraction`. Both strip it before parsing; the model omits the stripping because every string the core passes them is a token of `split()`, which has none.
- Underscores inside `Fraction` literals. Python 3.11 accepts them; this model follows the 3.6–3.10 grammar.
- Ingredients.SplitIngredient: the amount-token case of its contract is stated through lemmas, not in its own `ensures`. The row above covers only the marker case and the error kinds.
- Recipes.ParseRecipe: its own contract states only the None / never-None split. What a successful extraction holds is stated by the `Extracted…` lemmas.
- Recipes.RecipeJson: a float-typed `serves_amount` is not distinguished from an int, because JSON numbers are one kind here.

Behaviour of the code worth noting:

- The name of a "по вкусу" line is not trimmed.
- A unit label ends in a space.
- A malformed amount raises instead of giving a best-effort result.
- A record missing a field raises instead of being skipped.
- A listing dict without "itemListElement" raises KeyError.
- A page whose retries are exhausted is abandoned, and the run continues with the next page.
- Parsing is not idempotent under whitespace collapsing when the marker is involved. "по\tвкусу" does not contain "по вкусу", so it parses to name "", unit "по вкусу " and amount 0. Its collapsed form "по вкусу" contains the marker and parses to unit "по вкусу" and amount 1 (Ingredients.TabbedMarkerExample).

## Findings

| source | as written | input that shows it | evidently intended | confidence | as-written member | corrected member |
|---|---|---|---|---|---|---|
| eda_ru_parser/parser.py:173-177 | `load_and_parse_page(page)` runs inside the generator's frame. An `HTTPError` it raises therefore leaves the generator and finishes it. The driver catches the error and sends ERROR, and that send raises `StopIteration`, so the run ends. The page retry is never reached. | `pages_amount = 2`: the first fetch raises `HTTPError`, and two good listings follow. This input is hypothetical: the program never calls `raise_for_status()`, so `requests.get` does not raise `HTTPError` as written, and the defect shows once a fetch does raise it. The run returns `[]` with one error. Page 1 is not retried and page 2 is never requested. | A failed fetch is fed back as ERROR to a generator that is still suspended at its page. The page is retried up to ten times, and harvesting continues. | not executed | Composition.AsWrittenFirstFailureEnds | Composition.CorrectedRetriesFailedPages |
