/** The field descriptor of one logical field of an indexed entity (`IndexField`). */
module IndexField {
  import opened Wrappers

  /** The six field types of `IndexField.Type`. */
  datatype FieldType = Text | String | Boolean | Object | Date | Numeric

  /** A field descriptor. `nested` lists the sub-fields of an `Object` field; a Java
      collection may hold `null` entries, hence `Option`. */
  datatype Field = Field(
    name: string,
    ftype: FieldType,
    sortable: bool,
    searchable: bool,
    nested: seq<Option<Field>>)

  /** Suffixes naming the extra sub-fields of a multi-field group. */
  const SortSuffix: string := "sort"
  const SearchPartialSuffix: string := "grams"
  const SearchWordsSuffix: string := "words"

  /** The field's own name does not collide with one of the suffixes. */
  predicate NameIsNotSuffix(name: string) {
    name != SortSuffix && name != SearchPartialSuffix && name != SearchWordsSuffix
  }
}
