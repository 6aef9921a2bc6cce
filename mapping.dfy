/** The mapping compiler of `BaseIndex`: from a field descriptor to the backend's schema
    (`mapDomain`, `mapField` and the `map*Field` helpers). Every function here is pure: the
    compiler reads nothing but its arguments. */
module Mapping {
  import opened Wrappers
  import opened Json
  import opened IndexField

  /** The root mapping of an index type. `key` and `properties` are what the
      entity-specific `mapKey()` and `mapProperties()` return. */
  function MapDomain(key: Mapping, properties: Mapping): (r: Mapping)
    ensures r.Keys == {"dynamic", "_id", "properties"}
  {
    map["dynamic" := JBool(false), "_id" := JObject(key), "properties" := JObject(properties)]
  }

  function MapNumericField(f: Field): Mapping {
    map["type" := JString("double")]
  }

  function MapBooleanField(f: Field): Mapping {
    map["type" := JString("boolean")]
  }

  function MapDateField(f: Field): Mapping {
    map["type" := JString("date"), "format" := JString("date_time")]
  }

  function MapSortField(f: Field): Mapping {
    map["type" := JString("string"), "index" := JString("analyzed"), "analyzer" := JString("sortable")]
  }

  function MapGramsField(f: Field): Mapping {
    map["type" := JString("string"), "index" := JString("analyzed"),
        "index_analyzer" := JString("index_grams"), "search_analyzer" := JString("search_grams")]
  }

  function MapWordsField(f: Field): Mapping {
    map["type" := JString("string"), "index" := JString("analyzed"),
        "index_analyzer" := JString("index_words"), "search_analyzer" := JString("search_words")]
  }

  /** A text or string field that is sortable or searchable needs a multi-field group. */
  predicate NeedMultiField(f: Field) {
    (f.ftype == Text || f.ftype == String) && (f.sortable || f.searchable)
  }

  /** The value of the "type" key of a field's mapping, as an independent table. */
  function MappedType(f: Field, allowRecursive: bool): string {
    match f.ftype
    case Text => if allowRecursive && NeedMultiField(f) then "multi_field" else "string"
    case String => if allowRecursive && NeedMultiField(f) then "multi_field" else "string"
    case Boolean => "boolean"
    case Object => "nested"
    case Date => "date"
    case Numeric => "double"
  }

  /** `mapField(field, allowRecursive)`: dispatch on the field type. The source's final
      `else` (an unknown type throws) cannot be reached with the six-case `FieldType`. */
  function MapField(f: Field, allowRecursive: bool): (r: Mapping)
    ensures "type" in r && r["type"] == JString(MappedType(f, allowRecursive))
    decreases f, if allowRecursive then 1 else 0, 3
  {
    match f.ftype
    case Text => MapTextField(f, allowRecursive)
    case String => MapStringField(f, allowRecursive)
    case Boolean => MapBooleanField(f)
    case Object => MapNestedField(f)
    case Date => MapDateField(f)
    case Numeric => MapNumericField(f)
  }

  /** `mapField(field)`: multi-field expansion allowed. */
  function MapFieldAllowingMulti(f: Field): Mapping
    decreases f, 2
  {
    MapField(f, true)
  }

  /** `mapMultiField`: the sub-fields of a multi-field group. The field's own name is put
      last, so it overwrites a suffix entry of the same name. */
  function MapMultiField(f: Field): (r: Mapping)
    ensures r.Keys <= {f.name, SortSuffix, SearchPartialSuffix, SearchWordsSuffix}
    ensures f.name in r && r[f.name] == JObject(MapField(f, false))
    decreases f, 1, 1
  {
    var sorted: Mapping := if f.sortable then map[SortSuffix := JObject(MapSortField(f))] else map[];
    var partial: Mapping :=
      if f.searchable && f.ftype != Text then sorted[SearchPartialSuffix := JObject(MapGramsField(f))]
      else sorted;
    var words: Mapping :=
      if f.searchable then partial[SearchWordsSuffix := JObject(MapWordsField(f))] else partial;
    words[f.name := JObject(MapField(f, false))]
  }

  /** `mapStringField`: an analyzed string with keyword indexing and whitespace search,
      or a multi-field group around it. */
  function MapStringField(f: Field, allowRecursive: bool): (r: Mapping)
    ensures r.Keys == if allowRecursive && NeedMultiField(f) then {"type", "fields"}
                      else {"type", "index", "index_analyzer", "search_analyzer"}
    decreases f, if allowRecursive then 1 else 0, 2
  {
    if allowRecursive && NeedMultiField(f) then
      map["type" := JString("multi_field"), "fields" := JObject(MapMultiField(f))]
    else
      map["type" := JString("string"), "index" := JString("analyzed"),
          "index_analyzer" := JString("keyword"), "search_analyzer" := JString("whitespace")]
  }

  /** `mapTextField`: a not-analyzed string, or a multi-field group around it. */
  function MapTextField(f: Field, allowRecursive: bool): (r: Mapping)
    ensures r.Keys == if allowRecursive && NeedMultiField(f) then {"type", "fields"} else {"type", "index"}
    decreases f, if allowRecursive then 1 else 0, 2
  {
    if allowRecursive && NeedMultiField(f) then
      map["type" := JString("multi_field"), "fields" := JObject(MapMultiField(f))]
    else
      map["type" := JString("string"), "index" := JString("not_analyzed")]
  }

  /** `mapNestedField`: a nested object whose properties are its sub-fields' mappings. */
  function MapNestedField(f: Field): (r: Mapping)
    ensures r.Keys == {"type", "properties"} && r["type"] == JString("nested")
    ensures r["properties"].JObject? && r["properties"].fields.Keys == NestedNames(f, |f.nested|)
    decreases f, 0, 2
  {
    map["type" := JString("nested"), "properties" := JObject(NestedProperties(f, |f.nested|))]
  }

  /** The names of the non-null entries among the first `n` nested fields of `f`. */
  function NestedNames(f: Field, n: nat): set<string>
    requires n <= |f.nested|
  {
    set i | 0 <= i < n && f.nested[i].Some? :: f.nested[i].value.name
  }

  /** The loop of `mapNestedField` after its first `n` iterations: each non-null nested
      field is put under its name, compiled with multi-field expansion allowed. */
  function NestedProperties(f: Field, n: nat): (r: Mapping)
    requires n <= |f.nested|
    ensures r.Keys == NestedNames(f, n)
    decreases f, 0, 1, n
  {
    if n == 0 then map[]
    else
      var m := NestedProperties(f, n - 1);
      match f.nested[n - 1]
      case None => m
      case Some(g) => m[g.name := JObject(MapFieldAllowingMulti(g))]
  }

  /** Nesting height of a descriptor: 0 for a scalar field, one more than its tallest
      sub-field for an object. */
  function Height(f: Field): nat
    decreases f, 1
  {
    if f.ftype == Object then 1 + NestedHeight(f, |f.nested|) else 0
  }

  function NestedHeight(f: Field, n: nat): nat
    requires n <= |f.nested|
    decreases f, 0, n
  {
    if n == 0 then 0
    else
      var h := NestedHeight(f, n - 1);
      match f.nested[n - 1]
      case None => h
      case Some(g) => if Height(g) > h then Height(g) else h
  }

  // ---------------------------------------------------------------------------
  // Properties of the compiler

  /** The root of a domain mapping has exactly three keys: dynamic mapping is switched off,
      and the key and property mappings are passed through unchanged. */
  lemma DomainMappingShape(key: Mapping, properties: Mapping)
    ensures MapDomain(key, properties).Keys == {"dynamic", "_id", "properties"}
    ensures MapDomain(key, properties)["dynamic"] == JBool(false)
    ensures MapDomain(key, properties)["_id"] == JObject(key)
    ensures MapDomain(key, properties)["properties"] == JObject(properties)
  {
  }

  /** Boolean, numeric and date fields compile to fixed mappings, whatever the flags. */
  lemma LeafMappingsAreFixed(f: Field, allowRecursive: bool)
    ensures f.ftype == Boolean ==> MapField(f, allowRecursive) == map["type" := JString("boolean")]
    ensures f.ftype == Numeric ==> MapField(f, allowRecursive) == map["type" := JString("double")]
    ensures f.ftype == Date ==>
      MapField(f, allowRecursive) == map["type" := JString("date"), "format" := JString("date_time")]
  {
  }

  /** A field becomes a multi-field group exactly when expansion is allowed, it is text or
      string, and it is sortable or searchable; the group is `{type: multi_field, fields: ...}`. */
  lemma MultiFieldExactlyWhen(f: Field, allowRecursive: bool)
    ensures MapField(f, allowRecursive)["type"] == JString("multi_field") <==>
      allowRecursive && (f.ftype == Text || f.ftype == String) && (f.sortable || f.searchable)
    ensures MapField(f, allowRecursive)["type"] == JString("multi_field") ==>
      MapField(f, allowRecursive) ==
        map["type" := JString("multi_field"), "fields" := JObject(MapMultiField(f))]
  {
  }

  /** Without a multi-field group, a text field is a not-analyzed string and a string field an
      analyzed string with keyword indexing and whitespace search. */
  lemma SinglePrimaryMapping(f: Field, allowRecursive: bool)
    requires !(allowRecursive && (f.sortable || f.searchable))
    ensures f.ftype == Text ==>
      MapField(f, allowRecursive) == map["type" := JString("string"), "index" := JString("not_analyzed")]
    ensures f.ftype == String ==>
      MapField(f, allowRecursive) ==
        map["type" := JString("string"), "index" := JString("analyzed"),
            "index_analyzer" := JString("keyword"), "search_analyzer" := JString("whitespace")]
  {
  }

  /** The key set of a multi-field group: the field's own name always, and each suffix
      exactly when its flag asks for it (partial matching only for string fields). */
  lemma MultiFieldKeys(f: Field)
    requires NameIsNotSuffix(f.name)
    ensures f.name in MapMultiField(f)
    ensures SortSuffix in MapMultiField(f) <==> f.sortable
    ensures SearchWordsSuffix in MapMultiField(f) <==> f.searchable
    ensures SearchPartialSuffix in MapMultiField(f) <==> f.searchable && f.ftype != Text
    ensures MapMultiField(f).Keys <= {f.name, SortSuffix, SearchPartialSuffix, SearchWordsSuffix}
    ensures MapMultiField(f)[f.name] == JObject(MapField(f, false))
  {
  }

  /** Expansion is at most one level deep: every sub-field of a group of a text or string
      field is a flat mapping, and none of them is a multi-field group again. */
  lemma MultiFieldIsOneLevel(f: Field)
    requires f.ftype == Text || f.ftype == String
    ensures forall k :: k in MapMultiField(f) ==>
      && MapMultiField(f)[k].JObject?
      && "type" in MapMultiField(f)[k].fields
      && MapMultiField(f)[k].fields["type"] == JString("string")
      && DepthAtMost(MapMultiField(f)[k], 1)
  {
    var r := MapMultiField(f);
    forall k | k in r
      ensures r[k].JObject? && "type" in r[k].fields && r[k].fields["type"] == JString("string")
      ensures DepthAtMost(r[k], 1)
    {
      if k == f.name {
        assert r[k] == JObject(MapField(f, false));
        SinglePrimaryMapping(f, false);
      }
    }
  }

  /** Each non-null nested field that is the last one with its name is compiled, with
      multi-field expansion allowed, under that name. */
  lemma {:induction false} NestedPropertiesValues(f: Field, n: nat, i: nat)
    requires i < n <= |f.nested| && f.nested[i].Some?
    requires forall j :: i < j < n && f.nested[j].Some? ==> f.nested[j].value.name != f.nested[i].value.name
    ensures f.nested[i].value.name in NestedProperties(f, n)
    ensures NestedProperties(f, n)[f.nested[i].value.name] == JObject(MapField(f.nested[i].value, true))
  {
    if i < n - 1 {
      NestedPropertiesValues(f, n - 1, i);
    }
  }

  /** An object field compiles to `{type: nested, properties: P}` whatever `allowRecursive`
      says, where P holds exactly the names of the non-null nested fields. */
  lemma NestedMapping(f: Field, allowRecursive: bool)
    requires f.ftype == Object
    ensures MapField(f, allowRecursive).Keys == {"type", "properties"}
    ensures MapField(f, allowRecursive)["type"] == JString("nested")
    ensures MapField(f, allowRecursive)["properties"] == JObject(NestedProperties(f, |f.nested|))
    ensures NestedProperties(f, |f.nested|).Keys ==
      set g | g in f.nested && g.Some? :: g.value.name
  {
    var names := set g | g in f.nested && g.Some? :: g.value.name;
    assert NestedNames(f, |f.nested|) == names by {
      forall x | x in names ensures x in NestedNames(f, |f.nested|) {
        var g :| g in f.nested && g.Some? && g.value.name == x;
        var i :| 0 <= i < |f.nested| && f.nested[i] == g;
      }
    }
  }

  /** A mapping has at most three levels of objects per level of nesting of its descriptor. */
  lemma {:induction false} MappingDepth(f: Field, allowRecursive: bool)
    ensures DepthAtMost(JObject(MapField(f, allowRecursive)), 3 + 2 * Height(f))
    decreases f, 1
  {
    var r := MapField(f, allowRecursive);
    match f.ftype
    case Object =>
      var p := NestedProperties(f, |f.nested|);
      NestedPropertiesDepth(f, |f.nested|);
      assert DepthAtMost(JObject(p), 4 + 2 * NestedHeight(f, |f.nested|));
      assert r == MapNestedField(f);
      assert r == map["type" := JString("nested"), "properties" := JObject(p)];
    case Text =>
      TextStringDepth(f, allowRecursive);
    case String =>
      TextStringDepth(f, allowRecursive);
    case _ =>
  }

  lemma TextStringDepth(f: Field, allowRecursive: bool)
    requires f.ftype == Text || f.ftype == String
    ensures DepthAtMost(JObject(MapField(f, allowRecursive)), 3)
  {
    var r := MapField(f, allowRecursive);
    if allowRecursive && NeedMultiField(f) {
      MultiFieldIsOneLevel(f);
      var fs := MapMultiField(f);
      assert DepthAtMost(JObject(fs), 2);
      assert r == map["type" := JString("multi_field"), "fields" := JObject(fs)] by {
        MultiFieldExactlyWhen(f, allowRecursive);
      }
    }
  }

  lemma {:induction false} NestedPropertiesDepth(f: Field, n: nat)
    requires n <= |f.nested|
    ensures DepthAtMost(JObject(NestedProperties(f, n)), 4 + 2 * NestedHeight(f, n))
    decreases f, 0, n
  {
    if n > 0 {
      var m := NestedProperties(f, n - 1);
      var d := 4 + 2 * NestedHeight(f, n);
      NestedPropertiesDepth(f, n - 1);
      forall k | k in m ensures DepthAtMost(m[k], d - 1) {
        DepthAtMostWeaken(m[k], 3 + 2 * NestedHeight(f, n - 1), d - 1);
      }
      match f.nested[n - 1]
      case None =>
      case Some(g) =>
        MappingDepth(g, true);
        DepthAtMostWeaken(JObject(MapField(g, true)), 3 + 2 * Height(g), d - 1);
    }
  }

  /** An entity with a sortable, searchable string field "name" and a date field "createdAt":
      "name" becomes a group with sort, words and grams sub-fields, "createdAt" a date_time. */
  lemma TwoFieldExample()
    ensures var name := Field("name", String, true, true, []);
      && MapField(name, true)["type"] == JString("multi_field")
      && MapMultiField(name).Keys == {"name", SortSuffix, SearchWordsSuffix, SearchPartialSuffix}
    ensures MapField(Field("createdAt", Date, false, false, []), true) ==
      map["type" := JString("date"), "format" := JString("date_time")]
  {
  }
}
