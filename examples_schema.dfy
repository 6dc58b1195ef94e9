/**
 * A worked instance of `toHeader` on a key spelled in capitals.
 */
module SchemaExamples {
  import opened Labels

  /** A key with an upper-case first letter keeps a leading space. */
  lemma UpperCaseKeyHeader()
    ensures ToHeader("ID") == " I D"
  {
    assert SpaceBeforeUpper("D") == " D";
    assert SpaceBeforeUpper("ID") == " I D";
    assert UnderscoresToSpaces(" I D") == " I D";
  }
}
