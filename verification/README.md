# Kitchen service data model in Dafny

This project models the data core of a small restaurant-kitchen administration service. It has
three entities:

- **DishType**: a named category such as "Soup".
- **Cook**: a staff account with a number of years of experience.
- **Dish**: a menu item with a name, a description, a price, an optional dish type and a set of cooks.

The model covers:

- the field validators declared on the entities, and the `clean` step that runs them;
- the store that holds the three tables and the dish/cook junction table;
- what deleting a row does to the rows that refer to it;
- the declared orderings of the dish and dish-type listings;
- the `__str__` renderings;
- the case-insensitive name search of the list pages.

Modules:

- `Wrappers` (wrappers.dfy): `Option`, `Result` and `Outcome`.
- `Text` (text.dfy): Python's `str(int)` rendering and its inverse, code-point lexicographic
  order, ASCII lower-casing and substring search.
- `Models` (models.dfy): the entity records, the declared constants and messages, the validators,
  `CleanDishType` / `CleanCook` / `CleanDish`, and the renderings.
- `Junction` (junction.dfy): the dish/cook association as a set of (dish id, cook id) rows.
- `Kitchen` (store.dfy): class `Store` with its tables as `map` and `set` fields. Its methods
  create rows, delete rows and set a dish's cooks. `Valid()` is the referential-integrity
  invariant that every method keeps. `ListDishes` and `ListDishTypes` return the ordered listings.
- `Sorting` (sorting.dfy): the listing of a table in a total preorder.
- `Search` (search.dfy): the list-page filter.

Prices are held as integer cents. The price field is a decimal with two places and at most ten
digits. Validation is separate from insertion: the store accepts any record, including a DishType
with an empty name or a Dish with no description, and only the `Clean*` functions report what is
wrong with a record.

## Model

| member | source | states |
|---|---|---|
| `Models.ExperienceErrors` | kitchen/models.py:25-37 | years of experience are accepted exactly when 0 <= n <= 40; a negative value gets exactly "Years Of Experience can`t be negative.", a value above 40 exactly "Experience cannot exceed 40 years.", and never both |
| `Models.ExperienceBoundsAccepted` | kitchen/models.py:29-37 | the bounds 0 and 40 are accepted; -1 and 41 get their bound's message |
| `Models.NewCook` | kitchen/models.py:25-26 | a cook created without an experience value has 0 years; a given value is kept |
| `Models.PriceMinimumErrorsAsWritten` | kitchen/models.py:70-75 | as written, a price passes the minimum exactly when cents/100 is at least the binary double 0.01 |
| `Models.OneCentRefusedAsWritten` | kitchen/models.py:70-75 | as written, one cent is refused with "Price must be greater than 0", and a price passes exactly when it is at least two cents |
| `Models.Float001IsNearestDouble` | kitchen/models.py:71-72 | the constant used for the limit 0.01 is the double nearest to 1/100: a 53-bit mantissa over 2^59, within half a unit in the last place |
| `Models.PriceMinimumErrors` | kitchen/models.py:70-75 | corrected minimum: a price passes exactly when it is at least one cent; otherwise the single message is "Price must be greater than 0" |
| `Models.PriceMinimumDiffersOnlyAtOneCent` | kitchen/models.py:70-75 | the corrected and as-written minimum checks disagree on one price only, one cent |
| `Models.PriceDigitsAccepts` | kitchen/models.py:65-69 | a price in cents fits ten digits with two decimal places exactly when its magnitude is below 10^10 cents |
| `Models.TextErrors` | kitchen/models.py:56-64 | a required text with a maximum length passes exactly when it is non-empty and no longer than the limit, with at most one error |
| `Models.CleanDishTypeAccepts` | kitchen/models.py:9-13 | a dish type is clean exactly when its name has 1 to 100 characters |
| `Models.CleanCookAccepts` | kitchen/models.py:25-38 | the cook's own field, `years_of_experience`, passes its validators exactly when it is in [0, 40]; otherwise the one error is the bound's message |
| `Models.CleanDishAccepts` | kitchen/models.py:55-81 | a dish is clean exactly when its name has 1..100 characters, its description 1..500, its price is 1 cent to below 10^10 cents, and its dish type is set and exists |
| `Models.CleanDishReportsLowPrice` | kitchen/models.py:70-75 | a dish priced below one cent is reported on the price field with "Price must be greater than 0" |
| `Models.DishTypeStr` | kitchen/models.py:20-21 | a dish type renders as its name |
| `Models.DishStr` | kitchen/models.py:87-88 | a dish renders as its name |
| `Models.CookStrShowsFields` | kitchen/models.py:50-52 | a cook's rendering is the username, " (", the first name, a space, the last name, the label "), years of experience: " and the experience, each at its place; the experience reads back unchanged from the end |
| `Text.DecimalStringRoundTrip` | kitchen/models.py:51-52 | rendering an integer in decimal loses nothing: parsing the text gives back the integer, negative values included |
| `Text.LexLeTotal` | kitchen/models.py:16 | any two names are comparable in the name order |
| `Text.LexLeTransitive` | kitchen/models.py:16 | the name order is transitive |
| `Text.LexLeAntisymmetric` | kitchen/models.py:16 | two names that are each at most the other are equal |
| `Text.ContainsIffOccurs` | kitchen/tests.py:163-171 | the substring scan succeeds exactly when the query occurs at some position of the text |
| `Text.EmptyQueryMatches` | kitchen/tests.py:174-187 | the empty query matches every text |
| `Sorting.Insert` | kitchen/models.py:84-85 | inserting into a sorted listing keeps it sorted and adds exactly that row |
| `Sorting.ListRows` | kitchen/models.py:15-16 | a table's listing holds every row exactly once and is sorted by the given order |
| `Kitchen.PriceDescendingIsTotalPreorder` | kitchen/models.py:84-85 | price-descending is a total preorder, so it can order a listing |
| `Kitchen.NameAscendingIsTotalPreorder` | kitchen/models.py:15-16 | name-ascending is a total preorder, so it can order a listing |
| `Kitchen.ClearDishType` | kitchen/models.py:77-81 | deleting a dish type nulls a dish's reference to it and keeps the dish's name, description and price |
| `Kitchen.WithDishTypeCleared` | kitchen/models.py:77-81 | after a dish type is deleted, every dish remains; exactly the dishes that referred to it (or to none) have no type; every other dish is unchanged |
| `Kitchen.Store.CreateDishType` | kitchen/models.py:8-13 | a dish type is stored as given, unvalidated, under a fresh id, and no other table changes |
| `Kitchen.Store.CreateCook` | kitchen/models.py:24-38 | a cook is stored as given, unvalidated, under a fresh id, and no other table changes |
| `Kitchen.Store.CreateDish` | kitchen/models.py:55-82 | a dish is stored unvalidated under a fresh id with no cooks; a reference to a missing dish type is refused with an integrity error and nothing changes |
| `Kitchen.Store.AddCook` | kitchen/models.py:82 | adds one junction row; a missing dish is NotFound, a missing cook an integrity error |
| `Kitchen.Store.SetCooks` | kitchen/models.py:82 | the dish's cooks become exactly the given set, no earlier cook remains, other dishes' cooks are unchanged; missing dish or cook is refused with nothing changed |
| `Kitchen.Store.DeleteDishType` | kitchen/models.py:77-81 | the dish type goes; dishes are updated as in `WithDishTypeCleared` and none is removed; cooks and junction rows are unchanged; a missing id is NotFound |
| `Kitchen.Store.DeleteCook` | kitchen/models.py:82 | the cook goes and leaves every dish's cook set; no dish or dish type changes; a missing id is NotFound |
| `Kitchen.Store.DeleteDish` | kitchen/models.py:82 | the dish and only its junction rows go; every cook loses just that dish; cooks and dish types are unchanged; a missing id is NotFound |
| `Kitchen.Store.ListDishes` | kitchen/models.py:84-85 | every dish exactly once, prices non-increasing |
| `Kitchen.Store.ListDishTypes` | kitchen/models.py:15-16 | every dish type exactly once, names non-decreasing |
| `Junction.CooksOf` | kitchen/models.py:82 | a dish's cooks are exactly the cooks paired with it in the junction table |
| `Junction.DishesOf` | kitchen/models.py:82 | a cook's dishes (the `dishes` accessor) are exactly the dishes paired with it |
| `Junction.WithoutCook` | kitchen/models.py:82 | removing a cook keeps exactly the junction rows that do not name it |
| `Junction.WithoutDish` | kitchen/models.py:82 | removing a dish keeps exactly the junction rows that do not name it |
| `Junction.DetachCook` | kitchen/models.py:82 | after a cook is removed, each dish's cooks are its former cooks minus that cook |
| `Junction.DetachDish` | kitchen/models.py:82 | after a dish is removed, it has no cooks and every other dish keeps its cooks |
| `Junction.ReplaceCooks` | kitchen/models.py:82 | setting a dish's cooks makes them exactly the given set and leaves other dishes alone |
| `Search.Filter` | kitchen/tests.py:163-171 | the filtered listing keeps exactly the rows whose key contains the query, ignoring ASCII case |
| `Search.EmptyQueryKeepsAll` | kitchen/tests.py:174-187 | the empty query returns the whole listing in its order |
| `Search.FilterKeepsOrder` | kitchen/tests.py:216-240 | filtering a sorted listing leaves it sorted |
| `Search.CookSearchExample` | kitchen/tests.py:136-171 | searching the cooks alice, bob, ALIce2 and charlie for "alice" yields alice and ALIce2 |

## Left out

- Log-in requirements, HTTP status codes, redirects, templates and URL reversal (`get_absolute_url`, kitchen/models.py:44-48) are framework plumbing.
- The fields Cook inherits from the user-account base class (password, e-mail, staff flags) are left out. So are password hashing, the password-strength policy and username uniqueness: they live in the web framework.
- Models.CleanCook: checks only the cook's own field, `years_of_experience`. The checks on the inherited username (required, at most 150 characters, restricted character set) and on the first and last names (at most 150 characters) are not modelled, so a cook with an empty username counts as clean here.
- Kitchen.Store.CreateCook: stores any integer as `years_of_experience`. The database column is a bounded integer, and some databases refuse a raw insertion outside its range (an experience of 2^63). The model has unbounded integers and accepts it; only `CleanCook` reports an out-of-range experience.
- Kitchen.Store.CreateDish: stores any integer number of cents. The database column is `numeric(10,2)`, and some databases refuse a raw insertion of a price of 10^8 or more. The model has unbounded integers and accepts it; only `CleanDish` reports such a price.
- kitchen/forms.py and kitchen/views.py are not part of this model. So the form-only checks are missing: the password pair and whether a dish's cook selection may be empty. The update workflows and the index page's counts are missing too. `Search.Filter` follows the search behaviour that kitchen/tests.py pins down.
- The framework's own error texts are not reproduced. Errors for a missing required value, an over-long text, too many digits and an unknown reference appear as `Violation` kinds instead. The model reproduces only the messages written in kitchen/models.py.
- A description longer than 500 characters is reported by `CleanDish`. The TextField's `max_length` is enforced by the generated form field, not by the model's own `full_clean`.
- Form fields strip surrounding whitespace before the required check. The model does not: only the empty text counts as missing.
- Prices are integer cents. A price with more than two decimal places cannot be expressed, and neither can a price given as a float (as in the tests' `price=7.50`).
- Names are ordered by code point, as under a binary collation. Locale-dependent database collations are left out.
- Matching ignores case for the ASCII letters A-Z only. Unicode case folding is left out.
- Rows that compare equal in a listing (two dishes with the same price) may come in any order, as the database does not fix one. The listings promise only a sorted permutation.
- Cooks have no declared ordering, so the model has no cook listing.
- Transactions, isolation and concurrency are left out.
- The id counters model the database's auto-increment keys. Ids are never reused.

## Findings

| source | as written | input that shows it | evidently intended | confidence | as-written member | corrected member |
|---|---|---|---|---|---|---|
| kitchen/models.py:70-75 | `MinValueValidator(0.01)` compares the Decimal price with the binary float 0.01. That float is 5764607523034235 / 2^59, slightly above one cent, and Python compares Decimal with float exactly. | a price of 0.01 (1 cent): refused with "Price must be greater than 0" | one cent is the smallest valid price, since the message asks only for a price greater than 0 | not executed; follows from Python's exact Decimal/float ordering | `Models.OneCentRefusedAsWritten` | `Models.PriceMinimumErrors` |

The rest of the model (`CleanDish`) uses the corrected minimum.
