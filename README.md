# Flashcard loader of fe_anki_app, in Dafny

The application serves study flashcards. At start-up, `load_flashcards_data`
reads a JSON file grouped as major category → sub-category → list of items.
Each item carries a term under `用語` and a definition under `説明`. The
function flattens this grouping into one ordered list of cards with four
fields: `term`, `definition`, `category` and `sub_category`. It stores the
list in the module global `FLASHCARDS_DATA`. The top page reports how many
cards there are, and `/api/cards` returns the list unchanged.

The project has two modules:

- `CardFlattening` (Flatten.dfy) is the specification.
  - The parsed file is a `Nested` value: a sequence of
    `(major category, sequence of (sub-category, items))` pairs. Sequence
    order stands for JSON object order.
  - An item is a `map<string, string>`.
  - `Leaves` lists every item in traversal order, together with its two
    enclosing keys.
  - `CardFromLeaf` is the card literal and its two lookups.
  - `Convert` builds the cards leaf by leaf. The first failed lookup ends it.
  - `Flatten` = `Convert ∘ Leaves` is what the loader computes.
  - The lemmas prove what this promises: the number of cards, their order,
    where each field comes from, empty groups, success exactly when every
    item has both keys, and which error a failure reports.
- `FlashcardApp` (Loader.dfy) is the program.
  - Class `Loader` holds `data`, which is `FLASHCARDS_DATA`.
  - `Load` is `load_flashcards_data`. It takes the parsed file, whether the
    file exists, and the resolved path. It proves that `data` ends up as
    one of three things: the sentinel card, `Flatten(nested).value`, or
    (after a failed lookup) its old value.
  - `TotalCards` and `Cards` are the reads made by the two routes.
  - `Startup` is the import-time sequence: an empty list, then one load.

The card field `sub_category` is called `subCategory` in the model. The
three nested `for` loops of the source appear as one loop per level:

- `Load` loops over the major categories.
- `AppendMajorCategory` loops over the sub-categories of one major category.
- `AppendItems` loops over the items of one sub-category.

Each level is proved against `Convert` of the leaves it adds. The appends
happen in the same order as in the source, and the first item without a key
aborts the same way.

## Model

| member | source | states |
|---|---|---|
| CardFlattening.ItemLeaves | api/index.py:38-44 | one leaf per item of a sub-category, in item order, each tagged with the enclosing major-category and sub-category keys |
| CardFlattening.MajorLeaves | api/index.py:36-44 | a major category yields exactly as many leaves as its sub-categories hold items (`SubCount`) |
| CardFlattening.Leaves | api/index.py:34-44 | the whole file yields exactly as many leaves as it holds items (`TotalItems`) |
| CardFlattening.CardFromLeaf | api/index.py:39-44 | a card is built exactly when the item has both `用語` and `説明`; term and definition are those values, category and sub-category the enclosing keys; a failed lookup names `用語` when it is missing (it is looked up first), otherwise `説明` |
| CardFlattening.Convert | api/index.py:38-44 | appending card by card over the leaves in order: a success holds one card per leaf; a failure is the `KeyError` of `用語` or `説明` (its exact provenance is `ConvertSpec`) |
| CardFlattening.ConvertSpec | api/index.py:32-44 | converting succeeds iff every leaf has both keys; then there is one card per leaf, the k-th card from the k-th leaf; otherwise the error is that of the first failing leaf, all earlier leaves having both keys |
| CardFlattening.ConvertSnoc | api/index.py:39-44 | one more item appends its card at the end, or its failed lookup becomes the outcome |
| CardFlattening.ConvertErrSticks | api/index.py:40-41 | once a lookup has failed, later items do not change the outcome (the exception leaves all three loops) |
| CardFlattening.ConvertAppendOk | api/index.py:38-44 | appending items that all have both keys appends exactly their cards, in order, after the cards already built |
| CardFlattening.ConvertAppendErr | api/index.py:38-41 | appending items of which the k-th is the first without a key fails with that item's missing key |
| CardFlattening.FirstFailureDecides | api/index.py:40-41 | the first item in traversal order that lacks a key decides the error |
| CardFlattening.LeavesAppend | api/index.py:34 | the leaves of two runs of major categories are the leaves of the first followed by those of the second |
| CardFlattening.MajorLeavesAppend | api/index.py:36 | the same for two runs of sub-categories within one major category |
| CardFlattening.LeavesAround | api/index.py:34-44 | the leaves of the file are those before major category i, then its own, then those after |
| CardFlattening.MajorLeavesAround | api/index.py:36-44 | the leaves of a major category are those before sub-category j, then its own, then those after |
| CardFlattening.PositionOrder | api/index.py:34-39 | the flat position of an item grows strictly with (major, sub-category, item) index in lexicographic order |
| CardFlattening.LeafAt | api/index.py:34-44 | the item at indices (i, j, m) is the leaf at position `TotalItems(nested[..i]) + SubCount(nested[i].1[..j]) + m`, tagged with keys `nested[i].0` and `nested[i].1[j].0` |
| CardFlattening.LeafOrigin | api/index.py:34-44 | every leaf position comes from some item (i, j, m) at that position: no leaf is invented |
| CardFlattening.Flatten | api/index.py:32-46 | the outcome of the three loops over the parsed file: a success holds exactly `TotalItems(nested)` cards (the sum of all item-list lengths); a failure names `用語` or `説明`. Success iff `WellFormed`, card placement and error provenance are the `Flatten*` lemmas below |
| CardFlattening.FlattenOkIff | api/index.py:38-46 | loading succeeds iff every item of every sub-category has both `用語` and `説明` |
| CardFlattening.FlattenCardAt | api/index.py:39-44 | on success the card of item (i, j, m) sits at its traversal position with term = item[`用語`], definition = item[`説明`], category = major key, sub_category = sub key |
| CardFlattening.FlattenCardOrigin | api/index.py:39-44 | on success every card comes from one item at that position and carries its values and its enclosing keys |
| CardFlattening.FlattenErrOrigin | api/index.py:40-41 | a failed load reports the missing key of an item whose lookup fails, and every item earlier in traversal order has both keys |
| CardFlattening.EmptyMajorAddsNothing | api/index.py:34-36 | inserting a major category with no sub-categories anywhere leaves the outcome unchanged |
| CardFlattening.EmptySubCategoryLeaves | api/index.py:36-38 | inside a major category, a sub-category with an empty item list contributes no leaves |
| CardFlattening.EmptySubAddsNothing | api/index.py:36-38 | inserting a sub-category with an empty item list anywhere leaves the outcome unchanged |
| CardFlattening.SingleGroupLeaves | api/index.py:34-38 | a file with one major category holding one sub-category yields exactly that sub-category's leaves |
| CardFlattening.SingleItemExample | api/index.py:32-46 | `{"1 基礎理論": {"離散数学": [{"用語": "集合", "説明": "ものの集まり"}]}}` flattens to the single card (集合, ものの集まり, 1 基礎理論, 離散数学) |
| CardFlattening.MissingDefinitionExample | api/index.py:40-41 | the same file without `説明` fails naming `説明` |
| FlashcardApp.SentinelCard | api/index.py:25 | the sentinel's term is `データが見つかりません`; its definition is `ファイルパス: ` followed by exactly the attempted path; category and sub_category are both `エラー` |
| FlashcardApp.Loader.constructor | api/index.py:12 | the card list starts empty |
| FlashcardApp.Loader.Load | api/index.py:14-47 | missing file: data becomes exactly `[SentinelCard(path)]`, whatever the file holds; otherwise on success data becomes `Flatten(nested).value`; on a missing key the outcome is that error and data keeps its old value |
| FlashcardApp.AppendItems | api/index.py:38-44 | the inner loop returns exactly `Convert` of the cards so far followed by this sub-category's leaves |
| FlashcardApp.AppendMajorCategory | api/index.py:36-44 | the middle loop returns exactly `Convert` of the cards so far followed by this major category's leaves |
| FlashcardApp.SubCategoryFails | api/index.py:36-41 | a sub-category whose items fail decides the outcome of its whole major category |
| FlashcardApp.MajorCategoryFails | api/index.py:34-41 | a major category whose items fail decides the outcome of the whole load |
| FlashcardApp.Loader.TotalCards | api/index.py:57 | the top page reports `total_cards` = the length of the card list |
| FlashcardApp.Loader.Cards | api/index.py:64 | the cards endpoint returns the card list itself: same length, order and contents |
| FlashcardApp.Startup | api/index.py:49-50 | import-time load over the initially empty list: sentinel, the flattened cards, or (failed lookup) the error with an empty list |
| FlashcardApp.StartupIsDeterministic | api/index.py:49-50 | two start-ups over the same file serve identical card lists |

## Left out

- Flask wiring is not modelled: the application object, routing, `render_template`, `jsonify` and the `application` alias. `TotalCards` and `Cards` stand for what the two handlers read.
- Opening the file and `json.load` are not modelled. `Load` takes the already parsed grouping. `Outcome` carries only the `KeyError` of a missing `用語` or `説明`. The source has other startup-fatal errors on this path, and none of them has a counterpart in the model:
  - `IsADirectoryError` when the path exists but is a directory (lines 23 and 29).
  - `PermissionError` when the file cannot be opened (line 29).
  - `UnicodeDecodeError` when the file is not valid UTF-8 (line 30).
  - `JSONDecodeError` when the JSON is malformed (line 30).
  - `AttributeError` when the top level or a major category's value is not an object (lines 34 and 36).
  - `TypeError` when an item list is a number, `null` or a boolean (line 38).
  - `TypeError` when an item is not an object, including the characters of a non-empty string and the keys of a non-empty object used as an item list (line 40).
- Wrongly shaped item lists that the source accepts silently are not modelled either. An empty object or an empty string as an item list adds no cards, because the loop at line 38 runs zero times. The model's types admit only arrays of objects.
- Non-text item values are not modelled. The source accepts a number, `null`, a list or an object under `用語` or `説明` and serves it unchanged as the card's `term` or `definition` (lines 40-41). The model's items map text to text, so it cannot represent such values.
- Duplicate JSON keys are not modelled. `json.load` keeps one entry per key: the last value, at the first key's position. `Nested` and `SubCategories` are sequences of pairs, so they can hold a repeated major-category key, or a repeated sub-category key within one major category. The model does not merge such repeats: each is flattened on its own. All lemmas hold for every input, so they also cover the repeat-free groupings that `json.load` produces. Only the item maps (`map<string, string>`) rule out duplicates by their type.
- Path resolution with `os.path.dirname`, `abspath` and `join` relative to the module file is not modelled. `Load` receives the resolved path as an opaque string, and the `os.path.exists` result as the boolean `fileExists`.
- The two `print` diagnostics are left out. They only write to the log.
- Startup: a failed lookup raises at import time, so the real process never serves requests. The model returns `Failed` and keeps the old (empty) list, but nothing stops a caller from calling `TotalCards` or `Cards` afterwards.
- Concurrent requests are not modelled. The list is written only during start-up and only read afterwards.

