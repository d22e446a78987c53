/** The voluptuous schemas `RULE`, `ARTICLE` and `ARTICLES` of
    partsy/database.py, as validators over the loaded value tree. Each
    validator scans its mapping or list the way voluptuous does; its
    contract states the shape it accepts. */
module Schema {
  import opened Wrappers
  import opened Dicts
  import opened Tree

  // ---------------------------------------------------------------------
  // The rule schema RULE
  // ---------------------------------------------------------------------

  /** An entry of a rule mapping: an optional `footprint` or `symbol` key
      with a string value; any other key is an extra key and rejected. */
  predicate RuleEntryAllowed(k: Value, v: Value) {
    (k == Text("footprint") || k == Text("symbol")) && v.Text?
  }

  function RuleEntriesOk(es: seq<(Value, Value)>): (ok: bool)
    ensures ok <==> forall j :: 0 <= j < |es| ==> RuleEntryAllowed(es[j].0, es[j].1)
  {
    if es == [] then true
    else RuleEntryAllowed(es[0].0, es[0].1) && RuleEntriesOk(es[1..])
  }

  /** `RULE`: a mapping whose every entry is allowed; both keys optional. */
  function ValidRule(v: Value): (ok: bool)
    ensures ok <==> v.Mapping? && forall j :: 0 <= j < |v.entries| ==> RuleEntryAllowed(v.entries[j].0, v.entries[j].1)
  {
    v.Mapping? && RuleEntriesOk(v.entries)
  }

  /** `[RULE]`: a list (possibly empty) whose every element is a valid rule. */
  function ValidRules(vs: seq<Value>): (ok: bool)
    ensures ok <==> forall i :: 0 <= i < |vs| ==> ValidRule(vs[i])
  {
    if vs == [] then true
    else ValidRule(vs[0]) && ValidRules(vs[1..])
  }

  // ---------------------------------------------------------------------
  // {str: str}
  // ---------------------------------------------------------------------

  function VendorEntriesOk(es: seq<(Value, Value)>): (ok: bool)
    ensures ok <==> forall j :: 0 <= j < |es| ==> es[j].0.Text? && es[j].1.Text?
  {
    if es == [] then true
    else es[0].0.Text? && es[0].1.Text? && VendorEntriesOk(es[1..])
  }

  // ---------------------------------------------------------------------
  // ARTICLE and ARTICLES
  // ---------------------------------------------------------------------

  /** An entry of an article mapping: one of the six known keys, with a
      value of the type the schema gives that key. */
  predicate ArticleEntryAllowed(k: Value, v: Value) {
    if k == Text("name") || k == Text("manufacturer") || k == Text("mpart_no") then v.Text?
    else if k == Text("ignore") then v.Boolean?
    else if k == Text("matches") then v.Sequence? && ValidRules(v.items)
    else if k == Text("vendor") then v.Mapping? && VendorEntriesOk(v.entries)
    else false
  }

  function ArticleEntriesOk(es: seq<(Value, Value)>): (ok: bool)
    ensures ok <==> forall j :: 0 <= j < |es| ==> ArticleEntryAllowed(es[j].0, es[j].1)
  {
    if es == [] then true
    else ArticleEntryAllowed(es[0].0, es[0].1) && ArticleEntriesOk(es[1..])
  }

  /** `ARTICLE`: a mapping that has the required `name` key and no entry the
      schema does not allow. */
  function ValidArticle(v: Value): (ok: bool)
    ensures ok <==>
      && v.Mapping?
      && (exists j :: 0 <= j < |v.entries| && v.entries[j].0 == Text("name"))
      && forall j :: 0 <= j < |v.entries| ==> ArticleEntryAllowed(v.entries[j].0, v.entries[j].1)
  {
    v.Mapping? && Get(v.entries, Text("name")).Some? && ArticleEntriesOk(v.entries)
  }

  function AllArticlesOk(vs: seq<Value>): (ok: bool)
    ensures ok <==> forall i :: 0 <= i < |vs| ==> ValidArticle(vs[i])
  {
    if vs == [] then true
    else ValidArticle(vs[0]) && AllArticlesOk(vs[1..])
  }

  /** `ARTICLES`: the whole file is a list of articles. */
  function ValidArticles(v: Value): (ok: bool)
    ensures ok <==> v.Sequence? && forall i :: 0 <= i < |v.items| ==> ValidArticle(v.items[i])
  {
    v.Sequence? && AllArticlesOk(v.items)
  }

  /** Whatever else it holds, a valid article's `name` is a string and every
      other known key holds a value of its schema type. */
  lemma ValidArticleFields(v: Value, k: Value)
    requires ValidArticle(v)
    requires Get(v.entries, k).Some?
    ensures ArticleEntryAllowed(k, Get(v.entries, k).value)
  {
  }
}
