/** What a rejected document is told: fixed codes at paths of fixed steps, never input values. */
module Diagnostics {

  datatype Code =
    | INPUT_NOT_JSON | INPUT_LIMIT
    | INVALID_SHAPE | UNKNOWN_PROPERTY | MISSING_PROPERTY | INVALID_ARRAY | INVALID_IDENTIFIER
    | UNSUPPORTED_VERSION | UNSUPPORTED_TYPE | INVALID_BOOLEAN | INVALID_LENGTH | CONTRADICTORY_LENGTH
    | DUPLICATE_KEY_FIELD | UNSUPPORTED_DELETE_ACTION
    | DUPLICATE_MODEL | DUPLICATE_FIELD | RESERVED_SCHEMA | DUPLICATE_TABLE | DUPLICATE_COLUMN | RESERVED_COLUMN
    | INCOMPLETE_MAPPING | LOSSY_PRESENCE | DUPLICATE_KEY | UNKNOWN_KEY_FIELD | NULLABLE_PRIMARY_KEY
    | DUPLICATE_FOREIGN_KEY | UNKNOWN_REFERENCE | INVALID_FOREIGN_KEY | NON_UNIQUE_REFERENCE
    | FOREIGN_KEY_TYPE_MISMATCH | INVALID_SET_NULL | SQL_NAME_COLLISION

  datatype Step =
    | Item(index: int)
    | AtVersion | AtModels | AtName | AtFields | AtType | AtRequired | AtNullable | AtMinLength | AtMaxLength
    | AtStorage | AtSchema | AtTable | AtColumns | AtField | AtPrimaryKey | AtUniqueKeys | AtForeignKeys
    | AtReferences | AtModel | AtOnDelete

  datatype Path = Root | Under(path: Path, step: Step)
  datatype Diagnostic = Diagnostic(code: Code, path: Path)

  const CAP := 100

  /** The diagnostics that are kept when these faults are found in this order. */
  function Capped(faults: seq<Diagnostic>): seq<Diagnostic> {
    if |faults| <= CAP then faults else faults[..CAP]
  }

  /** One fault unless the condition holds. */
  function Unless(condition: bool, code: Code, path: Path): seq<Diagnostic> {
    if condition then [] else [Diagnostic(code, path)]
  }

  /** The faults of the items of a list, item after item. */
  ghost function Each<T>(check: (T, int) -> seq<Diagnostic>, items: seq<T>): seq<Diagnostic> {
    if items == [] then []
    else
      var n := |items| - 1;
      Each(check, items[..n]) + check(items[n], n)
  }

  lemma EachSnoc<T>(check: (T, int) -> seq<Diagnostic>, items: seq<T>, i: nat)
    requires i < |items|
    ensures Each(check, items[..i + 1]) == Each(check, items[..i]) + check(items[i], i)
  {
    assert items[..i + 1][..i] == items[..i];
  }

  lemma {:induction false} EachClean<T>(check: (T, int) -> seq<Diagnostic>, items: seq<T>)
    ensures Each(check, items) == [] <==> forall i | 0 <= i < |items| :: check(items[i], i) == []
  {
    if items != [] {
      var n := |items| - 1;
      EachClean(check, items[..n]);
      assert forall i | 0 <= i < n :: items[..n][i] == items[i];
    }
  }

  lemma {:induction false} EachMember<T>(check: (T, int) -> seq<Diagnostic>, items: seq<T>, x: Diagnostic)
    ensures x in Each(check, items) <==> exists i | 0 <= i < |items| :: x in check(items[i], i)
  {
    if items != [] {
      var n := |items| - 1;
      EachMember(check, items[..n], x);
      if i :| 0 <= i < |items| && x in check(items[i], i) {
        if i < n {
          assert items[..n][i] == items[i];
        }
      }
    }
  }
}
