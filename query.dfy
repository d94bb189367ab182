/**
 * The query filter of the product listing, as the document store receives
 * it, and what it means for a stored document to match it.
 *
 * A filter is a dictionary. A field name maps to a value the field must
 * equal; the key "$or" maps to a list of `$regex` conditions of which one
 * must hold. A `$regex` pattern is interpreted here only when it is literal
 * text (no regular-expression metacharacters): it then matches a text that
 * contains it, ignoring ASCII case when its options contain 'i'.
 */
module Query {
  import opened Wrappers
  import opened Documents
  import opened Text

  /** `{field: {"$regex": pattern, "$options": options}}` */
  datatype RegexCondition = RegexCondition(field: string, pattern: string, options: string)

  /** What a key of the filter maps to. */
  datatype Clause =
    | Equals(value: string)                     // field equals this text
    | AnyOf(alternatives: seq<RegexCondition>)  // under "$or": one of the conditions holds

  type Filter = map<string, Clause>

  const OrKey := "$or"
  const CategoryKey := "category"

  /** The characters with a special meaning in a regular expression. */
  const RegexMetacharacters: set<char> :=
    {'\\', '^', '$', '.', '|', '?', '*', '+', '(', ')', '[', ']', '{', '}'}

  /** A pattern that, as a regular expression, stands only for itself. */
  predicate IsLiteral(pattern: string)
  {
    forall k :: 0 <= k < |pattern| ==> pattern[k] !in RegexMetacharacters
  }

  /** Every `$regex` pattern in the filter is literal. */
  predicate LiteralPatterns(f: Filter)
  {
    forall key :: key in f && f[key].AnyOf? ==>
      forall c :: c in f[key].alternatives ==> IsLiteral(c.pattern)
  }

  /** A literal `$regex` condition holds of a document: the field is a text containing the pattern. */
  predicate RegexHolds(c: RegexCondition, d: Document)
    requires IsLiteral(c.pattern)
  {
    c.field in d && d[c.field].Str? &&
    if 'i' in c.options then ContainsSubstring(Lower(d[c.field].s), Lower(c.pattern))
    else ContainsSubstring(d[c.field].s, c.pattern)
  }

  /** The clause stored under `key` holds of a document. */
  predicate ClauseHolds(key: string, clause: Clause, d: Document)
    requires clause.AnyOf? ==> forall c :: c in clause.alternatives ==> IsLiteral(c.pattern)
  {
    match clause
    case Equals(v) => key in d && d[key] == Str(v)
    case AnyOf(alternatives) => key == OrKey && exists c :: c in alternatives && RegexHolds(c, d)
  }

  /** A document matches a filter when every clause of the filter holds of it. */
  predicate Matches(f: Filter, d: Document): (m: bool)
    requires LiteralPatterns(f)
    ensures f == map[] ==> m
    ensures m ==> forall key :: key in f && f[key].Equals? ==> key in d && d[key] == Str(f[key].value)
    ensures m && OrKey in f && f[OrKey].AnyOf? ==> exists c :: c in f[OrKey].alternatives && RegexHolds(c, d)
  {
    forall key :: key in f ==> ClauseHolds(key, f[key], d)
  }

  /** A query parameter that is given and not empty (a Python truth test on an optional text). */
  predicate Present(p: Option<string>): (r: bool)
    ensures r <==> p.Some? && Truthy(Str(p.value))
  {
    p.Some? && p.value != ""
  }

  /**
   * The filter list_products sends for the `category` and `q` parameters:
   * an equality on "category" when a category is given, and when a search
   * text is given, a case-insensitive `$regex` on "title" or on "description".
   */
  function QueryFilter(category: Option<string>, q: Option<string>): (f: Filter)
    ensures CategoryKey in f <==> Present(category)
    ensures OrKey in f <==> Present(q)
    ensures f.Keys <= {CategoryKey, OrKey}
    ensures !Present(category) && !Present(q) ==> f == map[]
    ensures Present(q) ==> f[OrKey].AnyOf? && |f[OrKey].alternatives| == 2
  {
    var byCategory: Filter := if Present(category) then map[CategoryKey := Equals(category.value)] else map[];
    if Present(q) then
      byCategory[OrKey := AnyOf([RegexCondition("title", q.value, "i"), RegexCondition("description", q.value, "i")])]
    else
      byCategory
  }

  // ---------------------------------------------------------------------
  // What the listing is meant to select, stated without the filter.
  // ---------------------------------------------------------------------

  /** No category is asked for, or the document's category is exactly the one asked for. */
  predicate CategoryMatches(category: Option<string>, d: Document)
  {
    !Present(category) || (CategoryKey in d && d[CategoryKey] == Str(category.value))
  }

  /** The field is a text having `q` as a case-insensitive substring. */
  predicate FieldContains(d: Document, field: string, q: string)
  {
    field in d && d[field].Str? && ContainsIgnoringCase(d[field].s, q)
  }

  /** No search text is given, or the title or the description contains it, ignoring case. */
  predicate TextMatches(q: Option<string>, d: Document)
  {
    !Present(q) || FieldContains(d, "title", q.value) || FieldContains(d, "description", q.value)
  }

  /** A literal search text yields a filter whose patterns are all literal. */
  lemma QueryFilterIsLiteral(category: Option<string>, q: Option<string>)
    requires q.Some? ==> IsLiteral(q.value)
    ensures LiteralPatterns(QueryFilter(category, q))
  {
    var f := QueryFilter(category, q);
    forall key | key in f && f[key].AnyOf?
      ensures forall c :: c in f[key].alternatives ==> IsLiteral(c.pattern)
    {
      assert key == OrKey;
    }
  }

  /** One case-insensitive literal `$regex` on a field holds exactly when the field contains the text up to case. */
  lemma RegexOnField(field: string, q: string, d: Document)
    requires IsLiteral(q)
    ensures RegexHolds(RegexCondition(field, q, "i"), d) <==> FieldContains(d, field, q)
  {
    if field in d && d[field].Str? {
      LoweredSearchIsCaseInsensitive(d[field].s, q);
    }
  }

  /**
   * The filter selects exactly the documents in the asked category (if
   * any) whose title or description contains the search text ignoring
   * case (if any): neither parameter overrides the other.
   */
  lemma {:induction false} QueryFilterSemantics(category: Option<string>, q: Option<string>, d: Document)
    requires q.Some? ==> IsLiteral(q.value)
    ensures LiteralPatterns(QueryFilter(category, q))
    ensures Matches(QueryFilter(category, q), d) <==> CategoryMatches(category, d) && TextMatches(q, d)
  {
    QueryFilterIsLiteral(category, q);
    var f := QueryFilter(category, q);
    if Present(q) {
      var title := RegexCondition("title", q.value, "i");
      var description := RegexCondition("description", q.value, "i");
      assert f[OrKey] == AnyOf([title, description]);
      RegexOnField("title", q.value, d);
      RegexOnField("description", q.value, d);
      assert ClauseHolds(OrKey, f[OrKey], d) <==> TextMatches(q, d);
    }
    if Present(category) {
      assert f[CategoryKey] == Equals(category.value);
      assert ClauseHolds(CategoryKey, f[CategoryKey], d) <==> CategoryMatches(category, d);
    }
    if Matches(f, d) {
      if Present(category) { assert ClauseHolds(CategoryKey, f[CategoryKey], d); }
      if Present(q) { assert ClauseHolds(OrKey, f[OrKey], d); }
    }
    if CategoryMatches(category, d) && TextMatches(q, d) {
      forall key | key in f ensures ClauseHolds(key, f[key], d) {
        assert key == CategoryKey || key == OrKey;
      }
    }
  }

  /** Without a category and a search text, every document matches. */
  lemma EmptyQueryMatchesAll(category: Option<string>, q: Option<string>, d: Document)
    requires !Present(category) && !Present(q)
    ensures QueryFilter(category, q) == map[]
    ensures LiteralPatterns(QueryFilter(category, q)) && Matches(QueryFilter(category, q), d)
  {
  }

  /** Searching for "gold" finds a product titled "Gold Ring". */
  lemma GoldSearchFindsTitle()
    ensures IsLiteral("gold")
    ensures Matches(QueryFilter(None, Some("gold")), map["title" := Str("Gold Ring")])
  {
    var ring: Document := map["title" := Str("Gold Ring")];
    QueryFilterSemantics(None, Some("gold"), ring);
    assert OccursIgnoringCaseAt("Gold Ring", "gold", 0);
  }

  /** Searching for "gold" finds a product described as "made of gold". */
  lemma GoldSearchFindsDescription()
    ensures IsLiteral("gold")
    ensures Matches(QueryFilter(None, Some("gold")), map["title" := Str("Chain"), "description" := Str("made of gold")])
  {
    var chain: Document := map["title" := Str("Chain"), "description" := Str("made of gold")];
    QueryFilterSemantics(None, Some("gold"), chain);
    assert chain["description"] == Str("made of gold");
    assert OccursIgnoringCaseAt("made of gold", "gold", 8);
  }

  /** Searching for "gold" skips a product titled "Silver Band" without a description. */
  lemma GoldSearchSkipsOthers()
    ensures IsLiteral("gold")
    ensures !Matches(QueryFilter(None, Some("gold")), map["title" := Str("Silver Band")])
  {
    var band: Document := map["title" := Str("Silver Band")];
    var t := "Silver Band";
    assert forall k :: 0 <= k < |t| ==> LowerChar(t[k]) != 'g';
    assert LowerChar("gold"[0]) == 'g';
    MissingFirstCharacter(t, "gold");
    assert !TextMatches(Some("gold"), band) by {
      assert band["title"] == Str(t);
      assert "description" !in band;
    }
    QueryFilterSemantics(None, Some("gold"), band);
  }
}
