# partsy part-matching core, modelled in Dafny

partsy reconciles a bill of materials exported by KiCad against a
hand-maintained YAML database of parts, and writes an order sheet for a
vendor. This project models its core:

- **Reader** (`partsy/readers.py`): a CSV row becomes an `Item`, a dictionary
  of `designator`, `footprint`, `qty` and `symbol`, with `qty` parsed by
  Python's `int()`.
- **Rules, articles, database** (`partsy/database.py`). A `Rule` is a
  conjunction of per-field patterns; a missing or `None` field fails it.
  An `Article` is a disjunction of rules with optional metadata and a
  vendor-to-order-number dictionary. The `Database` is an ordered article
  list: `match` returns the first matching article, and `add_article`
  appends. Loading validates the YAML tree against the voluptuous schemas
  `RULE`/`ARTICLE`/`ARTICLES` and builds articles with `from_db`. Dumping
  writes every article's `to_dict`.
- **Writer** (`partsy/writers.py`): `FarnellWriter` writes a header row and
  then one `(order number, quantity)` row per article. It raises
  `MissingOrderNo` when the article has no `farnell` order number.

Files: `wrappers.dfy` (Option/Result/Outcome), `dicts.dfy` (Python's
insertion-ordered dictionaries as key/value pair sequences), `tree.dfy` (the
value tree YAML loads to and dumps from), `readers.dfy`, `schema.dfy`,
`database.dfy` and `writers.dfy`.

Modelling choices:

- Regular expressions are abstract. Every matching function takes
  `m: ReMatch`, where `m(p, v)` stands for "`re.match(p, v)` finds a match".
  All properties hold for every such `m`. The compiled pattern is recorded
  as the written pattern with `"$"` appended, as `from_raw` builds it.
- `Item` and `Article`, `Rule` are values: the source never changes them
  after building them. `Database` and `FarnellWriter` are classes, because
  `add_article` appends to the article list in place and the writer's output
  stream grows.
- The YAML file is modelled as the value tree `yaml.safe_load` returns.
  Mappings are pair sequences, so the key order that `to_dict` fixes can be
  stated.

## Model

| member | source | states |
|---|---|---|
| `Readers.ParseInt` | partsy/readers.py:14 | `int()` in base 10: whitespace, an optional sign, then digit groups. A string it accepts holds between 1 and 4300 digits, the default limit of Python 3.11 and later |
| `Readers.TrimStart` | partsy/readers.py:14 | `int()` skips the leading whitespace and nothing else: the result is a suffix, what was dropped is all whitespace, and it starts with a non-space |
| `Readers.TrimEnd` | partsy/readers.py:14 | the same for trailing whitespace |
| `Readers.ParseShow` | partsy/readers.py:14 | `int(str(n)) == n` for every integer that `str()` renders, that is, one of at most 4300 digits; negative ones included |
| `Readers.NonNumericRejected` | partsy/readers.py:14 | a character that is not whitespace, a digit, `_` or a sign makes `int()` fail wherever it stands |
| `Readers.HandleRow` | partsy/readers.py:11-17 | succeeds iff the row has at least five columns and column 3 parses. The item then has exactly the keys designator, footprint, qty, symbol, holding `row[1]`, `row[2]`, `int(row[3])` and `row[4]`. Fewer than four columns, or four columns with a good quantity, give IndexError. A bad quantity with at least four columns gives ValueError, since `int(row[3])` is evaluated before `row[4]` |
| `Readers.HandleRowIgnoresOtherColumns` | partsy/readers.py:12-15 | column 0 and every column after 4 never change the item |
| `Readers.HandleRowQuantity` | partsy/readers.py:14 | a quantity column written as `str(q)` always yields `qty == q`, for every `q` that `str()` renders |
| `Schema.ValidRule` | partsy/database.py:8 | `RULE` accepts exactly the mappings whose every entry is a `footprint` or `symbol` key with a string value |
| `Schema.RuleEntriesOk` | partsy/database.py:8 | a rule mapping passes `RULE` iff every key is `footprint` or `symbol` with a string value; both keys are optional |
| `Schema.ValidRules` | partsy/database.py:14 | `[RULE]` accepts a list, empty included, iff every element passes `RULE` |
| `Schema.VendorEntriesOk` | partsy/database.py:15 | `{str: str}` accepts a mapping iff every key and value is a string |
| `Schema.ArticleEntriesOk` | partsy/database.py:10-15 | every entry has one of the six known keys with a value of that key's schema type; any other key is rejected |
| `Schema.ValidArticle` | partsy/database.py:10-15 | `ARTICLE` accepts exactly the mappings that have a `name` key and only allowed entries |
| `Schema.AllArticlesOk` | partsy/database.py:17 | every element of the list passes `ARTICLE` |
| `Schema.ValidArticles` | partsy/database.py:17 | `ARTICLES` accepts exactly a list whose every element passes `ARTICLE` |
| `Schema.ValidArticleFields` | partsy/database.py:10-15 | in an accepted article, every present key holds a value of its schema type |
| `Database.AllHold` | partsy/database.py:33-42 | the early-return scan returns true iff every condition holds |
| `Database.Rule.Match` | partsy/database.py:32-42 | true iff every condition's field is present in the item, is not `None`, and its compiled pattern matches the value. A rule without conditions matches every item |
| `Database.MissingFieldFails` | partsy/database.py:34-37 | a missing or `None` field fails every rule that constrains it, whatever the pattern |
| `Database.Rule.FromRaw` | partsy/database.py:44-48 | the same fields in the same order, each pattern compiled with `$` appended, and the written strings kept |
| `Database.Rule.ToDict` | partsy/database.py:50-51 | returns the un-anchored condition strings, in order, as a mapping that `RULE` accepts |
| `Database.AnyMatches` | partsy/database.py:81-87 | the early-return scan returns true iff some rule matches |
| `Database.Article.Match` | partsy/database.py:81-87 | true iff at least one rule matches, so an article without rules never matches |
| `Database.Article.ToDict` | partsy/database.py:89-103 | the key-by-key loop builds exactly `Serialized(a)`, the dictionary whose keys, order and `ARTICLE` validity `SerializedGet`, `SerializedKeyOrder` and `SerializedValid` state |
| `Database.SerializedGet` | partsy/database.py:89-103 | `name` is always present. `manufacturer`, `mpart_no` and `ignore` are present iff not `None`, so `ignore=False` is kept. `matches` is present iff there are rules, `vendor` iff there are vendors, and no other key ever appears |
| `Database.SerializedKeyOrder` | partsy/database.py:89-103 | keys come in the fixed order name, manufacturer, mpart_no, ignore, matches, vendor, each at most once, with `name` first |
| `Database.SerializedValid` | partsy/database.py:89-103 | whatever `to_dict` returns passes the `ARTICLE` schema |
| `Database.Article.Display` | partsy/database.py:105-115 | `<manufacturer, mpart_no, name>`: the manufacturer right after `<` and the part number right before the name, each followed by `, ` and left out together with its comma when absent or empty; `<name>` when both are left out |
| `Database.Article.FromDb` | partsy/database.py:55-66 | as written: succeeds iff the record has a `matches` key, and fails with KeyError `matches` otherwise |
| `Database.Article.FromDbDefaulted` | partsy/database.py:55-66 | the name as stored. Manufacturer, `mpart_no` and `ignore` hold their stored values when present and are `None` when absent. The rules are one compiled `from_raw` per `matches` element, in order, each dumping back to that element; a missing `matches` gives no rules. The vendors are the stored mapping, or `{}` when missing |
| `Database.Article.FromVendorItem` | partsy/database.py:68-79 | one rule `{symbol, footprint}` in that order, vendors `{vendor: order_no}`, name from the vendor item, and manufacturer, mpart_no and ignore all `None` |
| `Database.FromVendorItemKeys` | partsy/database.py:68-79 | its `to_dict` has exactly the keys name, matches, vendor |
| `Database.FromVendorItemMatches` | partsy/database.py:76 | it matches exactly the items whose symbol and footprint are strings that the given patterns, with `$` appended, match |
| `Database.RoundTrip` | partsy/database.py:55-66 | `from_db(to_dict(a))` gives back `a` exactly for every article with at least one rule: name, metadata, rules with their condition strings, and vendors |
| `Database.RoundTripFailsWithoutRules` | partsy/database.py:63 | for every article without rules, `to_dict` passes the schema but `from_db` of it raises KeyError `matches` |
| `Database.RoundTripDefaulted` | partsy/database.py:55-66 | with `raw.get('matches', [])`, `from_db(to_dict(a)) == a` for every article |
| `Database.Collect` | partsy/database.py:133 | the list comprehension yields every article in order, or stops with the first record's error |
| `Database.LoadArticles` | partsy/database.py:125-134 | loading reports a schema failure exactly when the tree fails `ARTICLES` |
| `Database.LoadInOrder` | partsy/database.py:125-134 | for a tree that passes `ARTICLES`, loading succeeds iff `from_db` accepts every record, then yields one article per record in input order, each the `from_db` of its record; otherwise the error is the missing `matches` key |
| `Database.LoadArticlesDefaulted` | partsy/database.py:125-134 | with the corrected `from_db`, loading fails iff the schema rejects the tree |
| `Database.DumpTree` | partsy/database.py:136-140 | the dumped list has one entry per article and always passes `ARTICLES` |
| `Database.DumpLoad` | partsy/database.py:125-140 | loading a dump, taken as a value tree, gives back the same articles in the same order when every article has a rule |
| `Database.DumpLoadFailsWithoutRules` | partsy/database.py:63 | one article without rules makes the dumped database fail to load |
| `Database.DumpLoadDefaulted` | partsy/database.py:125-140 | with the corrected `from_db`, loading a dump gives back every database |
| `Database.FirstMatch` | partsy/database.py:145-148 | returns the first article in list order that matches, and `None` iff none matches |
| `Database.FirstMatchAppend` | partsy/database.py:122-123 | after an append, an item that an earlier article matched keeps its answer. Otherwise the answer is the new article if it matches, else `None` |
| `Database.HandledRowsMatchable` | partsy/readers.py:12-15 | every item the reader builds can be tried against rules: its footprint and symbol are strings |
| `Database.Database.constructor` | partsy/database.py:119-120 | the database holds exactly the given articles |
| `Database.Database.AddArticle` | partsy/database.py:122-123 | the list grows by one with the new article last; earlier articles and their order are unchanged |
| `Database.Database.Load` | partsy/database.py:125-134 | a new database holding the articles `LoadArticles` yields, or its error |
| `Database.Database.Dump` | partsy/database.py:136-140 | every article's `to_dict`, in list order, as a list that `ARTICLES` accepts |
| `Database.Database.Match` | partsy/database.py:145-148 | the first article in list order that matches the item, and `None` iff none does |
| `Writers.FarnellRow` | partsy/writers.py:17-22 | MissingOrderNo iff the article has no `farnell` entry. Otherwise a KeyError iff the item has no `qty`. A row exactly when both are present: the Farnell order number and the item's stored quantity, unscaled |
| `Writers.OtherVendorsIrrelevant` | partsy/writers.py:18-22 | two articles with the same `farnell` entry give the same row or error |
| `Writers.AddedVendorIrrelevant` | partsy/writers.py:18-22 | adding a non-Farnell vendor entry to an article never changes what is written |
| `Writers.FarnellWriter.constructor` | partsy/writers.py:13-15 | the output is exactly the header row `Part Number, Quantity` |
| `Writers.FarnellWriter.OutputArticle` | partsy/writers.py:17-22 | on success, appends exactly the row `FarnellRow` gives and keeps earlier rows. On error, writes nothing. The header stays the first row |

## Left out

- `partsy/vendors.py`: HTTP requests to vendor sites, HTML scraping and
  unescaping. These are network I/O. Its `VendorItem` has only a name and a
  price, but `from_vendor_item` reads `vendor` and `order_no` too. The
  model's `VendorItem` therefore carries name, vendor and order number.
- `partsy/cli.py`: command wiring, file handling, `csv.reader`, printing,
  exit codes, its header check, and its stub `Article` and `Db` classes.
  The interactive resolver, the quantity multiplier and default vendors do
  not exist in the code and are not modelled.
- YAML text: `yaml.safe_load`, `yaml.dump`, the OrderedDict representer and
  the blank-line replacement in `dump` (partsy/database.py:20-24, 127,
  137-143). Loading and dumping are modelled over the value tree.
- `Database.DumpLoad`: `yaml.dump` sorts the keys of plain dictionaries. Only
  the `to_dict` OrderedDict keeps its insertion order. So each rule's
  condition strings and each vendor map come back from a dump file in key
  order; a rule built by `from_vendor_item` returns footprint first. The
  equality this lemma proves holds on the value tree, not through the YAML
  text.
- Regular-expression semantics. `ReMatch` is a parameter. `re.compile`
  rejecting an invalid pattern (`re.error`) is not modelled. Neither is
  `$` matching before a trailing newline.
- voluptuous error messages and paths: a rejected tree is one
  `SchemaInvalid` error.
- Python's `int()` on non-ASCII input: Unicode digits and Unicode
  whitespace. The model follows CPython 3.11 and later. It covers the ASCII
  whitespace `int()` strips (space, tab, line feed, vertical tab, form feed,
  carriage return), signs, and `_` digit separators (Python 3.6 and later).
  It uses the default limit of 4300 digits. A limit changed through
  `sys.set_int_max_str_digits` or `PYTHONINTMAXSTRDIGITS` is not modelled,
  and neither are releases before 3.11 without the limit.
- CSV quoting and encoding, and anything on the output stream before the
  writer was built: the output is the sequence of rows written.
- `Item.__repr__`, and the text of the `MissingOrderNo` message. The error
  carries the item the message formats.
- Python dictionaries cannot hold a key twice. The pair sequences that model
  them can, and a lookup then takes the first pair.
- `Database.Rule.Match`: an integer `footprint` or `symbol` makes `re.match`
  raise TypeError. The model requires `Matchable(item)` instead of
  modelling that error, and so do `Database.Article.Match` and
  `Database.Database.Match`. Every item the reader builds is matchable
  (`Database.HandledRowsMatchable`).
- `Rule(conditions, condition_strings)` is only built by `from_raw`. The
  round trips assume this (`Article.WellFormed`).

Further points of the code's behaviour that the model keeps:

- The writer's error is `MissingOrderNo`, carrying the item.
- `ignore` stays `None` when absent from a record.
- An article without rules does not survive dump-then-load (see
  "## Findings").

## Findings

| source | as written | input that shows it | evidently intended | confidence | as-written member | corrected member |
|---|---|---|---|---|---|---|
| partsy/database.py:63 | `from_db` reads `raw['matches']`. The `ARTICLE` schema makes `matches` optional, and `to_dict` leaves it out for an article without rules | any article whose rule list is empty, such as one loaded from `matches: []`: its `to_dict` passes the schema, yet `from_db` of it raises KeyError, so the dumped database no longer loads | `raw.get('matches', [])` | high that the schema and `from_db` disagree; not executed | `Database.RoundTripFailsWithoutRules` | `Database.RoundTripDefaulted` |
