/** The term-filter helpers of `BaseIndex`: each adds one clause to the `must` list of a
    bool filter under construction. */
module Filters {
  import opened Wrappers

  /** The filters the helpers build: a term filter, an or filter and a bool filter. */
  datatype Filter =
    | Term(field: string, value: string)
    | Or(filters: seq<Filter>)
    | Bool(must: seq<Filter>, should: seq<Filter>)

  /** A `BoolFilterBuilder`: `must` and `should` grow as clauses are added. */
  class BoolFilterBuilder {
    var must: seq<Filter>
    var should: seq<Filter>

    constructor ()
      ensures must == [] && should == []
    {
      must := [];
      should := [];
    }

    method Must(f: Filter)
      modifies this
      ensures must == old(must) + [f] && should == old(should)
    {
      must := must + [f];
    }

    method Should(f: Filter)
      modifies this
      ensures should == old(should) + [f] && must == old(must)
    {
      should := should + [f];
    }

    function Build(): Filter
      reads this
    {
      Bool(must, should)
    }
  }

  /** The clause `addTermFilter` adds for several values: one term filter per value, any of
      which may match. */
  function TermsFilter(field: string, values: seq<string>): Filter {
    Bool([], seq(|values|, i requires 0 <= i < |values| => Term(field, values[i])))
  }

  /** The clause `addMultiFieldTermFilter` adds: per value, an or filter over all fields. */
  function MultiFieldTermsFilter(fields: seq<string>, values: seq<string>): Filter {
    Bool([], seq(|values|, i requires 0 <= i < |values| =>
      Or(seq(|fields|, j requires 0 <= j < |fields| => Term(fields[j], values[i])))))
  }

  /** `addTermFilter(filter, field, values)`: nothing happens for a null or empty collection. */
  method AddTermsFilter(filter: BoolFilterBuilder, field: string, values: Option<seq<string>>)
    returns (r: BoolFilterBuilder)
    modifies filter
    ensures r == filter && filter.should == old(filter.should)
    ensures filter.must ==
      if values.None? || values.value == [] then old(filter.must)
      else old(filter.must) + [TermsFilter(field, values.value)]
  {
    if values.Some? && values.value != [] {
      var vs := values.value;
      var valuesFilter := new BoolFilterBuilder();
      for i := 0 to |vs|
        invariant valuesFilter.must == []
        invariant |valuesFilter.should| == i
        invariant forall j :: 0 <= j < i ==> valuesFilter.should[j] == Term(field, vs[j])
        invariant filter.must == old(filter.must) && filter.should == old(filter.should)
      {
        valuesFilter.Should(Term(field, vs[i]));
      }
      assert valuesFilter.Build() == TermsFilter(field, vs);
      filter.Must(valuesFilter.Build());
    }
    r := filter;
  }

  /** `addMultiFieldTermFilter(filter, values, fields...)`: nothing happens for a null or empty
      collection. */
  method AddMultiFieldTermFilter(filter: BoolFilterBuilder, values: Option<seq<string>>, fields: seq<string>)
    returns (r: BoolFilterBuilder)
    modifies filter
    ensures r == filter && filter.should == old(filter.should)
    ensures filter.must ==
      if values.None? || values.value == [] then old(filter.must)
      else old(filter.must) + [MultiFieldTermsFilter(fields, values.value)]
  {
    if values.Some? && values.value != [] {
      var vs := values.value;
      var valuesFilter := new BoolFilterBuilder();
      for i := 0 to |vs|
        invariant valuesFilter.must == []
        invariant |valuesFilter.should| == i
        invariant forall k :: 0 <= k < i ==>
          valuesFilter.should[k] == Or(seq(|fields|, j requires 0 <= j < |fields| => Term(fields[j], vs[k])))
        invariant filter.must == old(filter.must) && filter.should == old(filter.should)
      {
        var filterBuilders: seq<Filter> := [];
        for j := 0 to |fields|
          invariant |filterBuilders| == j
          invariant forall m :: 0 <= m < j ==> filterBuilders[m] == Term(fields[m], vs[i])
        {
          filterBuilders := filterBuilders + [Term(fields[j], vs[i])];
        }
        assert filterBuilders == seq(|fields|, j requires 0 <= j < |fields| => Term(fields[j], vs[i]));
        valuesFilter.Should(Or(filterBuilders));
      }
      assert valuesFilter.Build() == MultiFieldTermsFilter(fields, vs);
      filter.Must(valuesFilter.Build());
    }
    r := filter;
  }

  /** `addTermFilter(filter, field, value)`: one term filter, unless the value is null or empty. */
  method AddTermFilter(filter: BoolFilterBuilder, field: string, value: Option<string>)
    returns (r: BoolFilterBuilder)
    modifies filter
    ensures r == filter && filter.should == old(filter.should)
    ensures filter.must ==
      if value.None? || value.value == "" then old(filter.must)
      else old(filter.must) + [Term(field, value.value)]
  {
    if value.Some? && value.value != "" {
      filter.Must(Term(field, value.value));
    }
    r := filter;
  }

  // ---------------------------------------------------------------------------
  // What the clauses select, over documents that map a field to its indexed terms

  type Doc = map<string, set<string>>

  /** A term filter selects documents with the term in the field; an or filter, documents
      one of its filters selects; a bool filter, documents all its must clauses select and,
      when it has should clauses, one of them selects. */
  predicate Matches(doc: Doc, f: Filter) {
    match f
    case Term(field, value) => field in doc && value in doc[field]
    case Or(fs) => exists i :: 0 <= i < |fs| && Matches(doc, fs[i])
    case Bool(must, should) =>
      && (forall i :: 0 <= i < |must| ==> Matches(doc, must[i]))
      && (should == [] || exists i :: 0 <= i < |should| && Matches(doc, should[i]))
  }

  /** Adding a must clause narrows a bool filter to the documents the clause selects. */
  lemma MustNarrows(doc: Doc, must: seq<Filter>, should: seq<Filter>, c: Filter)
    ensures Matches(doc, Bool(must + [c], should)) <==> Matches(doc, Bool(must, should)) && Matches(doc, c)
  {
    var m := must + [c];
    if Matches(doc, Bool(must, should)) && Matches(doc, c) {
      forall i | 0 <= i < |m| ensures Matches(doc, m[i]) {
        if i < |must| { assert m[i] == must[i]; }
      }
    }
    if Matches(doc, Bool(m, should)) {
      assert m[|must|] == c;
      forall i | 0 <= i < |must| ensures Matches(doc, must[i]) {
        assert m[i] == must[i];
      }
    }
  }

  /** The clause for several values selects the documents holding one of the values in the
      field. */
  lemma TermsFilterSelects(doc: Doc, field: string, values: seq<string>)
    requires values != []
    ensures Matches(doc, TermsFilter(field, values)) <==>
      field in doc && exists i :: 0 <= i < |values| && values[i] in doc[field]
  {
    var sh := seq(|values|, i requires 0 <= i < |values| => Term(field, values[i]));
    assert TermsFilter(field, values).should == sh;
    if field in doc && exists i :: 0 <= i < |values| && values[i] in doc[field] {
      var i :| 0 <= i < |values| && values[i] in doc[field];
      assert Matches(doc, sh[i]);
    }
  }

  /** The multi-field clause selects the documents holding one of the values in one of the
      fields. */
  lemma MultiFieldTermsFilterSelects(doc: Doc, fields: seq<string>, values: seq<string>)
    requires values != []
    ensures Matches(doc, MultiFieldTermsFilter(fields, values)) <==>
      exists i, j :: 0 <= i < |values| && 0 <= j < |fields| && fields[j] in doc && values[i] in doc[fields[j]]
  {
    var ors := seq(|values|, i requires 0 <= i < |values| =>
      Or(seq(|fields|, j requires 0 <= j < |fields| => Term(fields[j], values[i]))));
    assert MultiFieldTermsFilter(fields, values).should == ors;
    if exists i, j :: 0 <= i < |values| && 0 <= j < |fields| && fields[j] in doc && values[i] in doc[fields[j]] {
      var i, j :| 0 <= i < |values| && 0 <= j < |fields| && fields[j] in doc && values[i] in doc[fields[j]];
      assert ors[i].filters[j] == Term(fields[j], values[i]);
      assert Matches(doc, ors[i]);
    }
    if Matches(doc, MultiFieldTermsFilter(fields, values)) {
      var i :| 0 <= i < |ors| && Matches(doc, ors[i]);
      var j :| 0 <= j < |ors[i].filters| && Matches(doc, ors[i].filters[j]);
      assert ors[i].filters[j] == Term(fields[j], values[i]);
    }
  }
}
