/** The part-matching data model of partsy/database.py: rules, articles and
    the ordered article database, with loading from and dumping to the value
    tree that the database file holds. */
module Database {
  import opened Wrappers
  import opened Dicts
  import opened Tree
  import opened Readers
  import opened Schema

  /** Regular-expression semantics are not modelled: `m(p, v)` stands for
      "Python's `re.match(p, v)` finds a match", which anchors at the start
      of `v`. Every property below holds for every such `m`. */
  type ReMatch = (string, string) -> bool

  /** The two keys a rule may constrain; the `RULE` schema rejects others. */
  datatype RuleField = Footprint | Symbol {
    function Name(): string {
      match this
      case Footprint => "footprint"
      case Symbol => "symbol"
    }
  }

  /** A compiled regular expression, known by the pattern it was built from. */
  datatype Regex = Regex(pattern: string)

  /** `re.match` raises TypeError on an integer, so a rule may only be tried
      on an item whose `footprint` and `symbol` are not integers (as every
      item a reader builds is). */
  predicate Matchable(item: Item) {
    forall f: RuleField :: f.Name() in item.props ==> !item.props[f.Name()].PInt?
  }

  /** The condition `field: exp` holds of `item`: the field is present, not
      `None`, and the pattern matches its value. */
  predicate Holds(field: RuleField, exp: Regex, item: Item, m: ReMatch) {
    var key := field.Name();
    key in item.props && item.props[key].PStr? && m(exp.pattern, item.props[key].s)
  }

  /** The loop of `Rule.match`: stop at the first condition that fails. */
  function AllHold(conds: seq<(RuleField, Regex)>, item: Item, m: ReMatch): (b: bool)
    ensures b <==> forall i :: 0 <= i < |conds| ==> Holds(conds[i].0, conds[i].1, item, m)
  {
    if conds == [] then true
    else if !Holds(conds[0].0, conds[0].1, item, m) then false
    else AllHold(conds[1..], item, m)
  }

  /** The dict comprehension of `Rule.from_raw`: every pattern is compiled
      with `'$'` appended, so that it must reach the end of the value. */
  function Compile(strings: seq<(RuleField, string)>): seq<(RuleField, Regex)> {
    seq(|strings|, i requires 0 <= i < |strings| => (strings[i].0, Regex(strings[i].1 + "$")))
  }

  /** A conjunction of per-field pattern constraints. `conditions` holds the
      compiled patterns, `conditionStrings` the patterns as written. */
  datatype Rule = Rule(conditions: seq<(RuleField, Regex)>, conditionStrings: seq<(RuleField, string)>) {

    /** The rule was built by `from_raw`, the only way the program builds one. */
    predicate Compiled() {
      conditions == Compile(conditionStrings)
    }

    /** `Rule.match`: every condition's field is present and not `None` in
        the item and its pattern matches; so a rule without conditions
        matches every item. */
    function Match(item: Item, m: ReMatch): (b: bool)
      requires Matchable(item)
      ensures b <==> forall i :: 0 <= i < |conditions| ==> Holds(conditions[i].0, conditions[i].1, item, m)
      ensures conditions == [] ==> b
    {
      AllHold(conditions, item, m)
    }

    /** `Rule.from_raw`: the same fields in the same order, each pattern
        anchored at the end, and the raw strings kept for `to_dict`. */
    static function FromRaw(strings: seq<(RuleField, string)>): (r: Rule)
      ensures r.Compiled() && r.conditionStrings == strings
      ensures |r.conditions| == |strings|
      ensures forall i :: 0 <= i < |strings| ==>
        r.conditions[i].0 == strings[i].0 && r.conditions[i].1.pattern == strings[i].1 + "$"
    {
      Rule(Compile(strings), strings)
    }

    /** `Rule.to_dict`: the un-anchored condition strings, a mapping the
        `RULE` schema accepts. */
    function ToDict(): (v: Value)
      ensures ValidRule(v)
      ensures v.Mapping? && |v.entries| == |conditionStrings|
      ensures forall i :: 0 <= i < |conditionStrings| ==>
        v.entries[i] == (Text(conditionStrings[i].0.Name()), Text(conditionStrings[i].1))
    {
      Mapping(seq(|conditionStrings|, i requires 0 <= i < |conditionStrings| =>
        (Text(conditionStrings[i].0.Name()), Text(conditionStrings[i].1))))
    }
  }

  /** A missing or `None` field fails every rule that constrains it,
      whatever its pattern. */
  lemma MissingFieldFails(rule: Rule, item: Item, m: ReMatch, i: nat)
    requires Matchable(item)
    requires i < |rule.conditions|
    requires var key := rule.conditions[i].0.Name(); key !in item.props || item.props[key] == PNone
    ensures !rule.Match(item, m)
  {
  }

  /** Every item the KiCad reader builds can be matched: its footprint and
      symbol are strings. */
  lemma HandledRowsMatchable(row: seq<string>)
    requires HandleRow(row).Success?
    ensures Matchable(HandleRow(row).value)
  {
    var item := HandleRow(row).value;
    forall f: RuleField | f.Name() in item.props ensures !item.props[f.Name()].PInt? {
      assert f.Name() == "footprint" || f.Name() == "symbol";
    }
  }

  /** What a vendor lookup hands back: the vendor, the order number that was
      looked up and the product name the vendor reported. */
  datatype VendorItem = VendorItem(name: string, vendor: string, orderNo: string)

  /** Why `Database.load` fails: the schema rejects the tree, or a record
      lacks a key that `from_db` indexes directly (Python's KeyError). */
  datatype LoadError = SchemaInvalid | MissingKey(key: string)

  /** The loop of `Article.match`: stop at the first rule that matches. */
  function AnyMatches(rules: seq<Rule>, item: Item, m: ReMatch): (b: bool)
    requires Matchable(item)
    ensures b <==> exists i :: 0 <= i < |rules| && rules[i].Match(item, m)
  {
    if rules == [] then false
    else if rules[0].Match(item, m) then true
    else AnyMatches(rules[1..], item, m)
  }

  /** A catalogue entry: a disjunction of rules, optional metadata and a
      vendor-to-order-number dictionary. */
  datatype Article = Article(
    name: string,
    manufacturer: Option<string>,
    mpartNo: Option<string>,
    ignore: Option<bool>,
    rules: seq<Rule>,
    vendors: seq<(string, string)>)
  {
    /** Every rule was built by `from_raw`. */
    predicate WellFormed() {
      forall i :: 0 <= i < |rules| ==> rules[i].Compiled()
    }

    /** `Article.match`: some rule matches; an article without rules never
        matches. */
    function Match(item: Item, m: ReMatch): (b: bool)
      requires Matchable(item)
      ensures b <==> exists i :: 0 <= i < |rules| && rules[i].Match(item, m)
      ensures rules == [] ==> !b
    {
      AnyMatches(rules, item, m)
    }

    /** `Article.to_dict`: the scalar attributes that are not `None`, in the
        order name, manufacturer, mpart_no, ignore; then the rules if there
        are any, then the vendors if there are any. */
    method ToDict() returns (v: Value)
      ensures v == Serialized(this)
    {
      var keys := ScalarKeys;
      var entries: seq<(Value, Value)> := [];
      for i := 0 to |keys|
        invariant entries == ScalarEntries(this, keys[..i])
      {
        var attr := Attr(this, keys[i]);
        if attr.Some? {
          entries := entries + [(Text(keys[i]), attr.value)];
        }
        assert keys[..i + 1][..i] == keys[..i];
      }
      assert keys[..|keys|] == keys;
      if |rules| > 0 {
        entries := entries + [(Text("matches"), Sequence(RuleTrees(rules)))];
      }
      if |vendors| > 0 {
        entries := entries + [(Text("vendor"), VendorTree(vendors))];
      }
      v := Mapping(entries);
    }

    /** `Article.__str__`: `<manufacturer, mpart_no, name>`, where an absent
        or empty manufacturer or part number is left out with its comma. */
    function Display(): (s: string)
      ensures |s| == |Shown(manufacturer)| + |Shown(mpartNo)| + |name| + 2
      ensures s[0] == '<' && s[|s| - 1] == '>'
      ensures s[|s| - 1 - |name|..|s| - 1] == name
      ensures Truthy(manufacturer) ==> s[1..|manufacturer.value| + 3] == manufacturer.value + ", "
      ensures Truthy(mpartNo) ==>
        s[|s| - 1 - |name| - |mpartNo.value| - 2..|s| - 1 - |name|] == mpartNo.value + ", "
      ensures !Truthy(manufacturer) && !Truthy(mpartNo) ==> s == "<" + name + ">"
    {
      var head := "<" + Shown(manufacturer);
      var s := head + Shown(mpartNo) + name + ">";
      assert s[|head|..|head| + |Shown(mpartNo)|] == Shown(mpartNo);
      s
    }

    /** `Article.from_db` as written: `raw['matches']` raises KeyError when
        the record has no `matches` key, although the schema allows that. */
    static function FromDb(raw: Value): (r: Result<Article, LoadError>)
      requires ValidArticle(raw)
      ensures r.Success? <==> Get(raw.entries, Text("matches")).Some?
      ensures r.Failure? ==> r.error == MissingKey("matches")
      ensures r.Success? ==> r.value == FromDbDefaulted(raw)
    {
      if Get(raw.entries, Text("matches")).None? then Failure(MissingKey("matches"))
      else Success(FromDbDefaulted(raw))
    }

    /** `Article.from_db` with the evident intent `raw.get('matches', [])`:
        the name and metadata as stored, absent keys as `None`, one compiled
        rule per `matches` element, and the vendor dictionary or `{}`. */
    static function FromDbDefaulted(raw: Value): (a: Article)
      requires ValidArticle(raw)
      ensures a.WellFormed()
      ensures Get(raw.entries, Text("name")) == Some(Text(a.name))
      ensures a.manufacturer.Some? <==> Get(raw.entries, Text("manufacturer")).Some?
      ensures a.manufacturer.Some? ==> Get(raw.entries, Text("manufacturer")) == Some(Text(a.manufacturer.value))
      ensures a.mpartNo.Some? <==> Get(raw.entries, Text("mpart_no")).Some?
      ensures a.mpartNo.Some? ==> Get(raw.entries, Text("mpart_no")) == Some(Text(a.mpartNo.value))
      ensures a.ignore.Some? <==> Get(raw.entries, Text("ignore")).Some?
      ensures a.ignore.Some? ==> Get(raw.entries, Text("ignore")) == Some(Boolean(a.ignore.value))
      ensures Get(raw.entries, Text("matches")).None? ==> a.rules == []
      ensures Get(raw.entries, Text("matches")).Some? ==>
        RuleTrees(a.rules) == Get(raw.entries, Text("matches")).value.items
      ensures Get(raw.entries, Text("vendor")).None? ==> a.vendors == []
      ensures Get(raw.entries, Text("vendor")).Some? ==> Get(raw.entries, Text("vendor")) == Some(VendorTree(a.vendors))
    {
      var es := raw.entries;
      var name := Get(es, Text("name"));
      ValidArticleFields(raw, Text("name"));
      Article(
        name.value.s,
        TextField(raw, "manufacturer"),
        TextField(raw, "mpart_no"),
        BoolField(raw, "ignore"),
        RulesField(raw),
        VendorField(raw))
    }

    /** `Article.from_vendor_item`: one rule constraining exactly `symbol`
        and `footprint`, one vendor entry, and no metadata. */
    static function FromVendorItem(vitem: VendorItem, symbol: string, footprint: string): (a: Article)
      ensures a.WellFormed()
      ensures a.name == vitem.name
      ensures a.manufacturer == None && a.mpartNo == None && a.ignore == None
      ensures |a.rules| == 1 && a.rules[0].conditionStrings == [(Symbol, symbol), (Footprint, footprint)]
      ensures a.vendors == [(vitem.vendor, vitem.orderNo)]
    {
      Article(vitem.name, None, None, None,
              [Rule.FromRaw([(Symbol, symbol), (Footprint, footprint)])],
              [(vitem.vendor, vitem.orderNo)])
    }
  }

  // ---------------------------------------------------------------------
  // Helpers of from_db
  // ---------------------------------------------------------------------

  function TextField(raw: Value, key: string): (r: Option<string>)
    requires ValidArticle(raw)
    requires key == "manufacturer" || key == "mpart_no"
    ensures r.Some? <==> Get(raw.entries, Text(key)).Some?
    ensures r.Some? ==> Get(raw.entries, Text(key)) == Some(Text(r.value))
  {
    var g := Get(raw.entries, Text(key));
    if g.None? then None
    else
      ValidArticleFields(raw, Text(key));
      Some(g.value.s)
  }

  function BoolField(raw: Value, key: string): (r: Option<bool>)
    requires ValidArticle(raw)
    requires key == "ignore"
    ensures r.Some? <==> Get(raw.entries, Text(key)).Some?
    ensures r.Some? ==> Get(raw.entries, Text(key)) == Some(Boolean(r.value))
  {
    var g := Get(raw.entries, Text(key));
    if g.None? then None
    else
      ValidArticleFields(raw, Text(key));
      Some(g.value.b)
  }

  function FieldOf(k: Value): (f: RuleField)
    requires k == Text("footprint") || k == Text("symbol")
    ensures Text(f.Name()) == k
  {
    if k == Text("footprint") then Footprint else Symbol
  }

  /** The condition strings of a validated rule mapping, in file order. */
  function ConditionStrings(v: Value): (strings: seq<(RuleField, string)>)
    requires ValidRule(v)
    ensures |strings| == |v.entries|
    ensures forall i :: 0 <= i < |strings| ==> v.entries[i] == (Text(strings[i].0.Name()), Text(strings[i].1))
  {
    seq(|v.entries|, i requires 0 <= i < |v.entries| =>
      assert RuleEntryAllowed(v.entries[i].0, v.entries[i].1);
      (FieldOf(v.entries[i].0), v.entries[i].1.s))
  }

  function RulesField(raw: Value): (rules: seq<Rule>)
    requires ValidArticle(raw)
    ensures forall i :: 0 <= i < |rules| ==> rules[i].Compiled()
    ensures Get(raw.entries, Text("matches")).None? ==> rules == []
    ensures Get(raw.entries, Text("matches")).Some? ==>
      var items := Get(raw.entries, Text("matches")).value.items;
      |rules| == |items| && forall i :: 0 <= i < |items| ==> rules[i].ToDict() == items[i]
  {
    var g := Get(raw.entries, Text("matches"));
    if g.None? then []
    else
      ValidArticleFields(raw, Text("matches"));
      var items := g.value.items;
      var rules := seq(|items|, i requires 0 <= i < |items| => Rule.FromRaw(ConditionStrings(items[i])));
      assert forall i :: 0 <= i < |items| ==> rules[i].ToDict() == items[i] by {
        forall i | 0 <= i < |items| ensures rules[i].ToDict() == items[i] {
          var d := rules[i].ToDict();
          assert |d.entries| == |items[i].entries|;
          assert forall j :: 0 <= j < |d.entries| ==> d.entries[j] == items[i].entries[j];
        }
      }
      rules
  }

  function VendorField(raw: Value): (vendors: seq<(string, string)>)
    requires ValidArticle(raw)
    ensures Get(raw.entries, Text("vendor")).None? ==> vendors == []
    ensures Get(raw.entries, Text("vendor")).Some? ==> Get(raw.entries, Text("vendor")) == Some(VendorTree(vendors))
  {
    var g := Get(raw.entries, Text("vendor"));
    if g.None? then []
    else
      ValidArticleFields(raw, Text("vendor"));
      var es := g.value.entries;
      var vendors := seq(|es|, i requires 0 <= i < |es| => (es[i].0.s, es[i].1.s));
      assert VendorTree(vendors) == g.value;
      vendors
  }

  // ---------------------------------------------------------------------
  // to_dict, as a specification
  // ---------------------------------------------------------------------

  const ScalarKeys: seq<string> := ["name", "manufacturer", "mpart_no", "ignore"]

  /** `getattr(article, key, None)` for the four scalar keys. */
  function Attr(a: Article, key: string): Option<Value> {
    if key == "name" then Some(Text(a.name))
    else if key == "manufacturer" then (if a.manufacturer.Some? then Some(Text(a.manufacturer.value)) else None)
    else if key == "mpart_no" then (if a.mpartNo.Some? then Some(Text(a.mpartNo.value)) else None)
    else if key == "ignore" then (if a.ignore.Some? then Some(Boolean(a.ignore.value)) else None)
    else None
  }

  function ScalarEntry(a: Article, key: string): seq<(Value, Value)> {
    var attr := Attr(a, key);
    if attr.Some? then [(Text(key), attr.value)] else []
  }

  function ScalarEntries(a: Article, keys: seq<string>): seq<(Value, Value)> {
    if keys == [] then []
    else ScalarEntries(a, keys[..|keys| - 1]) + ScalarEntry(a, keys[|keys| - 1])
  }

  function RuleTrees(rules: seq<Rule>): seq<Value> {
    seq(|rules|, i requires 0 <= i < |rules| => rules[i].ToDict())
  }

  function VendorTree(vendors: seq<(string, string)>): Value {
    Mapping(seq(|vendors|, i requires 0 <= i < |vendors| => (Text(vendors[i].0), Text(vendors[i].1))))
  }

  function MatchesEntry(a: Article): seq<(Value, Value)> {
    if |a.rules| > 0 then [(Text("matches"), Sequence(RuleTrees(a.rules)))] else []
  }

  function VendorEntry(a: Article): seq<(Value, Value)> {
    if |a.vendors| > 0 then [(Text("vendor"), VendorTree(a.vendors))] else []
  }

  /** The value tree `Article.to_dict` returns. */
  function Serialized(a: Article): Value {
    Mapping(ScalarEntries(a, ScalarKeys) + MatchesEntry(a) + VendorEntry(a))
  }

  predicate Truthy(o: Option<string>) {
    o.Some? && o.value != ""
  }

  function Shown(o: Option<string>): string {
    if Truthy(o) then o.value + ", " else ""
  }

  // ---------------------------------------------------------------------
  // Properties of to_dict
  // ---------------------------------------------------------------------

  /** The dictionary `to_dict` builds, segment by segment in insertion order. */
  lemma SerializedSegments(a: Article)
    ensures Serialized(a).entries ==
      ScalarEntry(a, "name") + ScalarEntry(a, "manufacturer") + ScalarEntry(a, "mpart_no")
        + ScalarEntry(a, "ignore") + MatchesEntry(a) + VendorEntry(a)
  {
    var ks := ScalarKeys;
    var n, mf, mp, ig := ScalarEntry(a, "name"), ScalarEntry(a, "manufacturer"), ScalarEntry(a, "mpart_no"), ScalarEntry(a, "ignore");
    assert ks[..1][..0] == [] && ks[..1][0] == "name";
    assert ScalarEntries(a, ks[..1]) == [] + n == n;
    assert ks[..2][..1] == ks[..1] && ks[..2][1] == "manufacturer";
    assert ScalarEntries(a, ks[..2]) == n + mf;
    assert ks[..3][..2] == ks[..2] && ks[..3][2] == "mpart_no";
    assert ScalarEntries(a, ks[..3]) == n + mf + mp;
    assert ks[..3] == ks[..|ks| - 1] && ks[3] == "ignore";
    assert ScalarEntries(a, ks) == n + mf + mp + ig;
  }

  /** Looking a key up in `to_dict`'s result: each key is present exactly
      when its attribute is not `None` (`ignore=False` included), `matches`
      only with rules, `vendor` only with vendors, and no other key. */
  lemma {:induction false} SerializedGet(a: Article, k: Value)
    ensures Get(Serialized(a).entries, k) ==
      if k == Text("name") then Some(Text(a.name))
      else if k == Text("manufacturer") then (if a.manufacturer.Some? then Some(Text(a.manufacturer.value)) else None)
      else if k == Text("mpart_no") then (if a.mpartNo.Some? then Some(Text(a.mpartNo.value)) else None)
      else if k == Text("ignore") then (if a.ignore.Some? then Some(Boolean(a.ignore.value)) else None)
      else if k == Text("matches") then (if |a.rules| > 0 then Some(Sequence(RuleTrees(a.rules))) else None)
      else if k == Text("vendor") then (if |a.vendors| > 0 then Some(VendorTree(a.vendors)) else None)
      else None
  {
    SerializedSegments(a);
    var n, mf, mp, ig := ScalarEntry(a, "name"), ScalarEntry(a, "manufacturer"), ScalarEntry(a, "mpart_no"), ScalarEntry(a, "ignore");
    var mt, vd := MatchesEntry(a), VendorEntry(a);
    GetAppend(n + mf + mp + ig + mt, vd, k);
    GetAppend(n + mf + mp + ig, mt, k);
    GetAppend(n + mf + mp, ig, k);
    GetAppend(n + mf, mp, k);
    GetAppend(n, mf, k);
  }

  /** Position of a key in `to_dict`'s fixed key order. */
  function KeyRank(k: Value): nat {
    if k == Text("name") then 0
    else if k == Text("manufacturer") then 1
    else if k == Text("mpart_no") then 2
    else if k == Text("ignore") then 3
    else if k == Text("matches") then 4
    else if k == Text("vendor") then 5
    else 6
  }

  /** The keys of `es` appear in strictly increasing rank, all below `bound`. */
  predicate RankedBelow(es: seq<(Value, Value)>, bound: nat) {
    && (forall i, j :: 0 <= i < j < |es| ==> KeyRank(es[i].0) < KeyRank(es[j].0))
    && (forall i :: 0 <= i < |es| ==> KeyRank(es[i].0) < bound)
  }

  lemma RankedExtend(es: seq<(Value, Value)>, seg: seq<(Value, Value)>, rank: nat)
    requires RankedBelow(es, rank)
    requires |seg| <= 1 && forall i :: 0 <= i < |seg| ==> KeyRank(seg[i].0) == rank
    ensures RankedBelow(es + seg, rank + 1)
  {
  }

  /** `to_dict` keeps a fixed key order: `name` first, then whichever of
      manufacturer, mpart_no, ignore, matches and vendor are emitted, in that
      order, each at most once. */
  lemma SerializedKeyOrder(a: Article)
    ensures var es := Serialized(a).entries;
      && |es| > 0 && es[0].0 == Text("name")
      && forall i, j :: 0 <= i < j < |es| ==> KeyRank(es[i].0) < KeyRank(es[j].0)
  {
    SerializedSegments(a);
    var n, mf, mp, ig := ScalarEntry(a, "name"), ScalarEntry(a, "manufacturer"), ScalarEntry(a, "mpart_no"), ScalarEntry(a, "ignore");
    var mt, vd := MatchesEntry(a), VendorEntry(a);
    RankedExtend([], n, 0);
    assert [] + n == n;
    RankedExtend(n, mf, 1);
    RankedExtend(n + mf, mp, 2);
    RankedExtend(n + mf + mp, ig, 3);
    RankedExtend(n + mf + mp + ig, mt, 4);
    RankedExtend(n + mf + mp + ig + mt, vd, 5);
  }

  /** Entries every one of which the `ARTICLE` schema allows. */
  predicate AllAllowed(es: seq<(Value, Value)>) {
    forall j :: 0 <= j < |es| ==> ArticleEntryAllowed(es[j].0, es[j].1)
  }

  lemma AllAllowedAppend(es: seq<(Value, Value)>, seg: seq<(Value, Value)>)
    requires AllAllowed(es) && AllAllowed(seg)
    ensures AllAllowed(es + seg)
  {
  }

  /** Every dictionary `to_dict` produces passes the `ARTICLE` schema. */
  lemma SerializedValid(a: Article)
    ensures ValidArticle(Serialized(a))
  {
    SerializedSegments(a);
    SerializedGet(a, Text("name"));
    var n, mf, mp, ig := ScalarEntry(a, "name"), ScalarEntry(a, "manufacturer"), ScalarEntry(a, "mpart_no"), ScalarEntry(a, "ignore");
    var mt, vd := MatchesEntry(a), VendorEntry(a);
    assert AllAllowed(mt) by {
      if |a.rules| > 0 {
        var rt := RuleTrees(a.rules);
        assert forall i :: 0 <= i < |rt| ==> ValidRule(rt[i]);
      }
    }
    assert AllAllowed(vd) by {
      if |a.vendors| > 0 {
        assert VendorEntriesOk(VendorTree(a.vendors).entries);
      }
    }
    AllAllowedAppend(n, mf);
    AllAllowedAppend(n + mf, mp);
    AllAllowedAppend(n + mf + mp, ig);
    AllAllowedAppend(n + mf + mp + ig, mt);
    AllAllowedAppend(n + mf + mp + ig + mt, vd);
  }

  /** The record `from_vendor_item` builds serialises to exactly `name`,
      `matches` and `vendor`. */
  lemma FromVendorItemKeys(vitem: VendorItem, symbol: string, footprint: string)
    ensures Keys(Serialized(Article.FromVendorItem(vitem, symbol, footprint)).entries)
      == [Text("name"), Text("matches"), Text("vendor")]
  {
    var a := Article.FromVendorItem(vitem, symbol, footprint);
    SerializedSegments(a);
  }

  // ---------------------------------------------------------------------
  // Round trips through the value tree
  // ---------------------------------------------------------------------

  /** A rule built by `from_raw` is determined by what `to_dict` returns. */
  lemma RuleFromDict(r: Rule, s: Rule)
    requires r.Compiled() && s.Compiled()
    requires r.ToDict() == s.ToDict()
    ensures r == s
  {
    assert |r.conditionStrings| == |s.conditionStrings|;
    forall j | 0 <= j < |r.conditionStrings| ensures r.conditionStrings[j] == s.conditionStrings[j] {
      assert r.ToDict().entries[j] == s.ToDict().entries[j];
      assert Text(r.conditionStrings[j].0.Name()) == Text(s.conditionStrings[j].0.Name());
    }
    assert r.conditionStrings == s.conditionStrings;
  }

  lemma VendorTreeInjective(v: seq<(string, string)>, w: seq<(string, string)>)
    requires VendorTree(v) == VendorTree(w)
    ensures v == w
  {
    assert |v| == |VendorTree(v).entries| == |w|;
    forall i | 0 <= i < |v| ensures v[i] == w[i] {
      assert VendorTree(v).entries[i] == VendorTree(w).entries[i];
    }
  }

  /** With the evident `raw.get('matches', [])`, reading back what `to_dict`
      wrote gives back the article, for every article whose rules
      `from_raw` built. */
  lemma RoundTripDefaulted(a: Article)
    requires a.WellFormed()
    ensures ValidArticle(Serialized(a))
    ensures Article.FromDbDefaulted(Serialized(a)) == a
  {
    SerializedValid(a);
    var raw := Serialized(a);
    var b := Article.FromDbDefaulted(raw);
    SerializedGet(a, Text("name"));
    SerializedGet(a, Text("manufacturer"));
    SerializedGet(a, Text("mpart_no"));
    SerializedGet(a, Text("ignore"));
    SerializedGet(a, Text("matches"));
    SerializedGet(a, Text("vendor"));
    assert b.rules == a.rules by {
      if |a.rules| > 0 {
        var items := RuleTrees(a.rules);
        assert |b.rules| == |items| == |a.rules|;
        forall i | 0 <= i < |a.rules| ensures b.rules[i] == a.rules[i] {
          assert b.rules[i].ToDict() == items[i] == a.rules[i].ToDict();
          RuleFromDict(b.rules[i], a.rules[i]);
        }
      }
    }
    assert b.vendors == a.vendors by {
      if |a.vendors| > 0 {
        VendorTreeInjective(b.vendors, a.vendors);
      }
    }
  }

  /** As written, `from_db(to_dict(a))` gives back `a` when it has a rule. */
  lemma RoundTrip(a: Article)
    requires a.WellFormed() && |a.rules| > 0
    ensures ValidArticle(Serialized(a))
    ensures Article.FromDb(Serialized(a)) == Success(a)
  {
    RoundTripDefaulted(a);
    SerializedGet(a, Text("matches"));
  }

  /** As written, an article without rules cannot be read back: `to_dict`
      leaves `matches` out and `from_db` then raises KeyError. */
  lemma RoundTripFailsWithoutRules(a: Article)
    requires a.rules == []
    ensures ValidArticle(Serialized(a))
    ensures Article.FromDb(Serialized(a)) == Failure(MissingKey("matches"))
  {
    SerializedValid(a);
    SerializedGet(a, Text("matches"));
  }

  // ---------------------------------------------------------------------
  // Database.load and Database.dump over the value tree
  // ---------------------------------------------------------------------

  /** The list comprehension of `Database.load` applied to the records'
      outcomes: every article in order, or the first record's error. */
  function Collect<T, E>(rs: seq<Result<T, E>>): (r: Result<seq<T>, E>)
    ensures r.Success? <==> forall i :: 0 <= i < |rs| ==> rs[i].Success?
    ensures r.Success? ==> (|r.value| == |rs| && forall i :: 0 <= i < |rs| ==> rs[i] == Success(r.value[i]))
    ensures r.Failure? ==> exists k :: (0 <= k < |rs| && rs[k] == Failure(r.error) &&
      forall j :: 0 <= j < k ==> rs[j].Success?)
  {
    if rs == [] then Success([])
    else if rs[0].Failure? then Failure(rs[0].error)
    else
      var rest := Collect(rs[1..]);
      if rest.Failure? then
        assert exists k :: (1 <= k < |rs| && rs[k] == Failure(rest.error) &&
          forall j :: 0 <= j < k ==> rs[j].Success?) by {
          var k :| 0 <= k < |rs| - 1 && rs[1..][k] == Failure(rest.error) &&
            forall j :: 0 <= j < k ==> rs[1..][j].Success?;
          assert rs[k + 1] == rs[1..][k];
          assert forall j :: 1 <= j < k + 1 ==> rs[j] == rs[1..][j - 1];
        }
        Failure(rest.error)
      else
        var all := [rs[0].value] + rest.value;
        assert forall i :: 1 <= i < |rs| ==> rs[i] == rs[1..][i - 1] && all[i] == rest.value[i - 1];
        Success(all)
  }

  /** What `Article.from_db` makes of each record of a validated tree. */
  function Outcomes(tree: Value): (rs: seq<Result<Article, LoadError>>)
    requires ValidArticles(tree)
    ensures |rs| == |tree.items|
    ensures forall i :: 0 <= i < |rs| ==> rs[i] == Article.FromDb(tree.items[i])
  {
    seq(|tree.items|, i requires 0 <= i < |tree.items| => Article.FromDb(tree.items[i]))
  }

  /** `Database.load` on the loaded tree: validate the whole tree against
      `ARTICLES`, then instantiate every record in order. */
  function LoadArticles(tree: Value): (r: Result<seq<Article>, LoadError>)
    ensures r == Failure(SchemaInvalid) <==> !ValidArticles(tree)
  {
    if !ValidArticles(tree) then Failure(SchemaInvalid)
    else Collect(Outcomes(tree))
  }

  /** A tree the schema accepts loads to one article per record, in input
      order, each what `from_db` makes of its record; it fails, with the
      KeyError `from_db` raises, iff some record has no `matches` key. */
  lemma LoadInOrder(tree: Value)
    requires ValidArticles(tree)
    ensures var r := LoadArticles(tree);
      && (r.Success? <==> forall i :: 0 <= i < |tree.items| ==> Article.FromDb(tree.items[i]).Success?)
      && (r.Success? ==> (|r.value| == |tree.items| &&
            forall i :: 0 <= i < |tree.items| ==> Article.FromDb(tree.items[i]) == Success(r.value[i])))
      && (r.Failure? ==> r.error == MissingKey("matches"))
  {
    var rs := Outcomes(tree);
    var r := Collect(rs);
    assert LoadArticles(tree) == r;
    if r.Success? {
      forall i | 0 <= i < |tree.items|
        ensures Article.FromDb(tree.items[i]) == Success(r.value[i])
      {
        assert rs[i] == Success(r.value[i]);
      }
    } else {
      var k :| 0 <= k < |rs| && rs[k] == Failure(r.error) && forall j :: 0 <= j < k ==> rs[j].Success?;
      assert Article.FromDb(tree.items[k]) == Failure(r.error);
    }
  }

  /** `Database.load` with the evident `raw.get('matches', [])`: only the
      schema can reject the tree. */
  function LoadArticlesDefaulted(tree: Value): (r: Result<seq<Article>, LoadError>)
    ensures r.Failure? <==> !ValidArticles(tree)
    ensures r.Failure? ==> r.error == SchemaInvalid
    ensures r.Success? ==> (|r.value| == |tree.items| &&
      forall i :: 0 <= i < |tree.items| ==> r.value[i] == Article.FromDbDefaulted(tree.items[i]))
  {
    if !ValidArticles(tree) then Failure(SchemaInvalid)
    else Success(seq(|tree.items|, i requires 0 <= i < |tree.items| => Article.FromDbDefaulted(tree.items[i])))
  }

  /** The list `Database.dump` hands to the YAML dumper. */
  function DumpTree(articles: seq<Article>): (v: Value)
    ensures ValidArticles(v) && |v.items| == |articles|
  {
    var v := Sequence(seq(|articles|, i requires 0 <= i < |articles| => Serialized(articles[i])));
    assert forall i :: 0 <= i < |articles| ==> ValidArticle(v.items[i]) by {
      forall i | 0 <= i < |articles| ensures ValidArticle(v.items[i]) {
        SerializedValid(articles[i]);
      }
    }
    v
  }

  /** Dumping and loading again reproduces the database, article for
      article and in order, when every article has a rule. */
  lemma DumpLoad(articles: seq<Article>)
    requires forall i :: 0 <= i < |articles| ==> articles[i].WellFormed() && |articles[i].rules| > 0
    ensures LoadArticles(DumpTree(articles)) == Success(articles)
  {
    var tree := DumpTree(articles);
    forall i | 0 <= i < |articles| ensures Article.FromDb(tree.items[i]) == Success(articles[i]) {
      RoundTrip(articles[i]);
    }
    LoadInOrder(tree);
    var r := LoadArticles(tree);
    assert r.Success?;
    assert r.value == articles;
  }

  /** As written, one article without rules makes the dumped database
      unloadable. */
  lemma DumpLoadFailsWithoutRules(articles: seq<Article>, k: nat)
    requires k < |articles| && articles[k].rules == []
    ensures LoadArticles(DumpTree(articles)) == Failure(MissingKey("matches"))
  {
    var tree := DumpTree(articles);
    LoadInOrder(tree);
    RoundTripFailsWithoutRules(articles[k]);
    assert tree.items[k] == Serialized(articles[k]);
  }

  /** With the evident `raw.get('matches', [])`, dumping and loading again
      reproduces every database. */
  lemma DumpLoadDefaulted(articles: seq<Article>)
    requires forall i :: 0 <= i < |articles| ==> articles[i].WellFormed()
    ensures LoadArticlesDefaulted(DumpTree(articles)) == Success(articles)
  {
    var tree := DumpTree(articles);
    var r := LoadArticlesDefaulted(tree);
    assert r.Success? && |r.value| == |articles|;
    forall i | 0 <= i < |articles| ensures r.value[i] == articles[i] {
      assert tree.items[i] == Serialized(articles[i]);
      RoundTripDefaulted(articles[i]);
    }
    assert r.value == articles;
  }

  // ---------------------------------------------------------------------
  // Database.match
  // ---------------------------------------------------------------------

  /** The loop of `Database.match`: the first article, in list order, that
      matches the item, or `None`. */
  function FirstMatch(articles: seq<Article>, item: Item, m: ReMatch): (r: Option<Article>)
    requires Matchable(item)
    ensures r.None? <==> forall i :: 0 <= i < |articles| ==> !articles[i].Match(item, m)
    ensures r.Some? ==> exists i :: (0 <= i < |articles| && articles[i] == r.value &&
      articles[i].Match(item, m) && forall j :: 0 <= j < i ==> !articles[j].Match(item, m))
  {
    if articles == [] then None
    else if articles[0].Match(item, m) then Some(articles[0])
    else
      var r := FirstMatch(articles[1..], item, m);
      assert r.Some? ==> exists i :: (1 <= i < |articles| && articles[i] == r.value &&
        articles[i].Match(item, m) && forall j :: 0 <= j < i ==> !articles[j].Match(item, m)) by {
        if r.Some? {
          var i :| 0 <= i < |articles| - 1 && articles[1..][i] == r.value &&
            articles[1..][i].Match(item, m) && forall j :: 0 <= j < i ==> !articles[1..][j].Match(item, m);
          assert articles[i + 1] == r.value;
          assert forall j :: 1 <= j < i + 1 ==> !articles[j].Match(item, m) by {
            forall j | 1 <= j < i + 1 ensures !articles[j].Match(item, m) {
              assert articles[j] == articles[1..][j - 1];
            }
          }
        }
      }
      r
  }

  /** Appending an article never changes the answer for an item some
      earlier article matches; for any other item the new article answers
      if it matches. */
  lemma {:induction false} FirstMatchAppend(articles: seq<Article>, a: Article, item: Item, m: ReMatch)
    requires Matchable(item)
    ensures FirstMatch(articles + [a], item, m) ==
      if FirstMatch(articles, item, m).Some? then FirstMatch(articles, item, m)
      else if a.Match(item, m) then Some(a) else None
  {
    if articles == [] {
      assert [] + [a] == [a];
      assert [a][1..] == [];
    } else {
      assert (articles + [a])[0] == articles[0];
      assert (articles + [a])[1..] == articles[1..] + [a];
      FirstMatchAppend(articles[1..], a, item, m);
    }
  }

  /** A record from `from_vendor_item` matches exactly the items whose
      symbol and footprint are strings that the given patterns, anchored at
      the end, match. */
  lemma FromVendorItemMatches(vitem: VendorItem, symbol: string, footprint: string, item: Item, m: ReMatch)
    requires Matchable(item)
    ensures Article.FromVendorItem(vitem, symbol, footprint).Match(item, m) <==>
      && "symbol" in item.props && item.props["symbol"].PStr? && m(symbol + "$", item.props["symbol"].s)
      && "footprint" in item.props && item.props["footprint"].PStr? && m(footprint + "$", item.props["footprint"].s)
  {
    var a := Article.FromVendorItem(vitem, symbol, footprint);
    var r := a.rules[0];
    assert a.rules == [r];
    assert a.Match(item, m) <==> r.Match(item, m);
    var c0, c1 := (Symbol, Regex(symbol + "$")), (Footprint, Regex(footprint + "$"));
    assert r.conditions == [c0, c1];
    assert r.conditions[1..] == [c1] && r.conditions[1..][1..] == [];
    assert AllHold([c1], item, m) == Holds(c1.0, c1.1, item, m);
    assert AllHold([c0, c1], item, m) == (Holds(c0.0, c0.1, item, m) && AllHold([c1], item, m));
  }

  /** The ordered article list the tool matches items against. */
  class Database {
    var articles: seq<Article>

    constructor (articles: seq<Article>)
      ensures this.articles == articles
    {
      this.articles := articles;
    }

    /** `Database.add_article`: the article goes last; the earlier ones
        and their order are kept. */
    method AddArticle(article: Article)
      modifies this
      ensures articles == old(articles) + [article]
    {
      articles := articles + [article];
    }

    /** `Database.load`: a database of the loaded records, in file order,
        or the error that stopped loading. */
    static method Load(tree: Value) returns (r: Result<Database, LoadError>)
      ensures r.Success? ==> fresh(r.value) && LoadArticles(tree) == Success(r.value.articles)
      ensures r.Failure? ==> LoadArticles(tree) == Failure(r.error)
    {
      match LoadArticles(tree)
      case Failure(e) =>
        r := Failure(e);
      case Success(articles) =>
        var db := new Database(articles);
        r := Success(db);
    }

    /** `Database.dump`, before YAML rendering: every article's `to_dict`,
        in list order; the `ARTICLES` schema accepts the result. */
    function Dump(): (v: Value)
      reads this
      ensures ValidArticles(v) && |v.items| == |articles|
      ensures forall i :: 0 <= i < |articles| ==> v.items[i] == Serialized(articles[i])
    {
      DumpTree(articles)
    }

    /** `Database.match`: the first article in list order that matches the
        item, and `None` exactly when none does. */
    function Match(item: Item, m: ReMatch): (r: Option<Article>)
      reads this
      requires Matchable(item)
      ensures r.None? <==> forall i :: 0 <= i < |articles| ==> !articles[i].Match(item, m)
      ensures r.Some? ==> exists i :: (0 <= i < |articles| && articles[i] == r.value &&
        articles[i].Match(item, m) && forall j :: 0 <= j < i ==> !articles[j].Match(item, m))
    {
      FirstMatch(articles, item, m)
    }
  }
}